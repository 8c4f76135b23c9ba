// The holding-report event: the open positions of one trader, or of a list
// of traders. The validator walks the traders and their positions and stops
// at the first error; the background job posts, per trader, one merged
// message to each of the trader's push targets.
module HoldingReport {
  import opened Text
  import opened Values
  import opened Validation
  import opened Delivery
  import opened PushTargets
  import opened NumberFormat

  const TraderRequired: set<string> := {"trader_uid", "trader_name", "trader_detail_url"}

  const InfoRequired: set<string> := {
    "pair", "pair_side", "pair_margin_type", "pair_leverage",
    "entry_price", "current_price", "unrealized_pnl_percentage"
  }

  const MissingLead: string := "缺少欄位: "
  const SideMsg: string := "pair_side 只能是 '1'(Long) 或 '2'(Short)"
  const MarginMsg: string := "pair_margin_type 只能是 '1'(Cross) 或 '2'(Isolated)"
  const NumbersMsg: string := "數值欄位必須為數字格式"
  const EmptyListMsg: string := "列表不能為空"
  const ShapeMsg: string := "請求資料必須為字典或列表格式"

  // ---------------------------------------------------------------------
  // Validation

  /** `str(type(v))`. */
  function TypeName(v: Value): string {
    match v
    case VNone => "<class 'NoneType'>"
    case VBool(_) => "<class 'bool'>"
    case VInt(_) => "<class 'int'>"
    case VFloat(_, _) => "<class 'float'>"
    case VStr(_) => "<class 'str'>"
    case VList(_) => "<class 'list'>"
    case VDict(_) => "<class 'dict'>"
  }

  /** The error for list item i that is not a dict. */
  function NotDictMsg(i: nat, v: Value): string {
    "列表項目 " + NatToString(i) + " 必須為字典格式，收到: " + TypeName(v)
  }

  /** How the errors name a trader: by position in the list form, not at
      all in the dict form. */
  function TraderTag(index: Option<nat>): string {
    if index.Some? then "trader " + NatToString(index.value) else "trader"
  }

  function InfosMsg(index: Option<nat>): string {
    TraderTag(index) + " 缺少infos或格式錯誤"
  }

  /** The prefix of the errors of info j: "trader i - info j" in the list
      form, "info j" in the dict form. */
  function InfoPrefix(index: Option<nat>, j: nat): string {
    if index.Some? then TraderTag(index) + " - info " + NatToString(j) else "info " + NatToString(j)
  }

  function Prefixed(prefix: string, msg: string): string {
    if prefix != "" then prefix + " - " + msg else msg
  }

  /** `data.get(key) not in (None, "", "None")`: the validator's test for
      an optional price. */
  predicate PriceGiven(v: Value) {
    v != VNone && v != VStr("") && v != VStr("None")
  }

  /** The numeric checks of one position. */
  predicate InfoNumbersOk(num: NumberSyntax, d: map<string, Value>) {
    && FloatOf(num, Get(d, "entry_price")).Some?
    && FloatOf(num, Get(d, "current_price")).Some?
    && FloatOf(num, Get(d, "unrealized_pnl_percentage")).Some?
    && FloatOf(num, Get(d, "pair_leverage")).Some?
    && (PriceGiven(Get(d, "tp_price")) ==> FloatOf(num, d["tp_price"]).Some?)
    && (PriceGiven(Get(d, "sl_price")) ==> FloatOf(num, d["sl_price"]).Some?)
  }

  /** `validate_single_holding_report(info, prefix)`: every error carries
      the prefix. A position that is not a dict fails at `.get` with
      AttributeError. */
  function InfoCheck(num: NumberSyntax, info: Value, prefix: string): (r: Check)
    ensures r.Fail? && prefix != "" && r.rejection.Missing? ==> StartsWith(r.rejection.lead, prefix + " - ")
    ensures r.Fail? && prefix != "" && r.rejection.Invalid? ==> StartsWith(r.rejection.message, prefix + " - ")
    ensures info.VDict? && MissingFields(info.fields, InfoRequired) != {} ==>
      r == Fail(Missing(Prefixed(prefix, MissingLead), MissingFields(info.fields, InfoRequired)))
  {
    if !info.VDict? then Crash
    else
      var d := info.fields;
      var missing := MissingFields(d, InfoRequired);
      if missing != {} then Fail(Missing(Prefixed(prefix, MissingLead), missing))
      else if !CodeOk(Get(d, "pair_side")) then Fail(Invalid(Prefixed(prefix, SideMsg)))
      else if !CodeOk(Get(d, "pair_margin_type")) then Fail(Invalid(Prefixed(prefix, MarginMsg)))
      else if !InfoNumbersOk(num, d) then Fail(Invalid(Prefixed(prefix, NumbersMsg)))
      else Pass
  }

  /** The checks of a trader's positions, in order. */
  function InfoChecks(num: NumberSyntax, infos: seq<Value>, index: Option<nat>): seq<Check> {
    seq(|infos|, j requires 0 <= j < |infos| => InfoCheck(num, infos[j], InfoPrefix(index, j)))
  }

  /** The checks of one trader: its own fields, then its positions. */
  function TraderCheck(num: NumberSyntax, d: map<string, Value>, index: Option<nat>): Check {
    var missing := MissingFields(d, TraderRequired);
    if missing != {} then Fail(Missing(TraderTag(index) + " " + MissingLead, missing))
    else
      var infos := Get(d, "infos");
      if !Truthy(infos) || !infos.VList? then Fail(Invalid(InfosMsg(index)))
      else FirstFailure(InfoChecks(num, infos.items, index))
  }

  /** The checks of list item i. */
  function EntryCheck(num: NumberSyntax, entry: Value, i: nat): Check {
    if !entry.VDict? then Fail(Invalid(NotDictMsg(i, entry)))
    else TraderCheck(num, entry.fields, Some(i))
  }

  function EntryChecks(num: NumberSyntax, entries: seq<Value>): seq<Check> {
    seq(|entries|, i requires 0 <= i < |entries| => EntryCheck(num, entries[i], i))
  }

  /** `validate_holding_report` as a value. */
  function HoldingReportCheck(num: NumberSyntax, data: Value): Check {
    match data
    case VList(entries) => if entries == [] then Fail(Invalid(EmptyListMsg)) else FirstFailure(EntryChecks(num, entries))
    case VDict(d) => TraderCheck(num, d, None)
    case _ => Fail(Invalid(ShapeMsg))
  }

  /** The loop over a trader's positions, stopping at the first error. */
  method CheckInfos(num: NumberSyntax, infos: seq<Value>, index: Option<nat>) returns (r: Check)
    ensures r == FirstFailure(InfoChecks(num, infos, index))
  {
    ghost var checks := InfoChecks(num, infos, index);
    var j := 0;
    while j < |infos|
      invariant 0 <= j <= |infos|
      invariant FirstFailure(checks[..j]) == Pass
    {
      r := InfoCheck(num, infos[j], InfoPrefix(index, j));
      assert r == checks[j];
      FirstFailureNext(checks, j);
      if r != Pass {
        FirstFailureStops(checks, j + 1);
        return;
      }
      j := j + 1;
    }
    assert checks[..j] == checks;
    r := Pass;
  }

  /** The checks of one trader. */
  method CheckTrader(num: NumberSyntax, d: map<string, Value>, index: Option<nat>) returns (r: Check)
    ensures r == TraderCheck(num, d, index)
  {
    var missing := MissingFields(d, TraderRequired);
    if missing != {} {
      return Fail(Missing(TraderTag(index) + " " + MissingLead, missing));
    }
    var infos := Get(d, "infos");
    if !Truthy(infos) || !infos.VList? {
      return Fail(Invalid(InfosMsg(index)));
    }
    r := CheckInfos(num, infos.items, index);
  }

  /** `validate_holding_report`: a non-empty list of traders, each checked
      in turn, or a single trader. */
  method ValidateHoldingReport(num: NumberSyntax, data: Value) returns (r: Check)
    ensures r == HoldingReportCheck(num, data)
  {
    if data.VDict? {
      r := CheckTrader(num, data.fields, None);
      return;
    }
    if !data.VList? {
      return Fail(Invalid(ShapeMsg));
    }
    if data.items == [] {
      return Fail(Invalid(EmptyListMsg));
    }
    r := CheckEntries(num, data.items);
  }

  /** The checks of list item i: a dict is checked as a trader. */
  method CheckEntry(num: NumberSyntax, entry: Value, i: nat) returns (r: Check)
    ensures r == EntryCheck(num, entry, i)
  {
    if !entry.VDict? {
      return Fail(Invalid(NotDictMsg(i, entry)));
    }
    r := CheckTrader(num, entry.fields, Some(i));
  }

  /** The loop over the traders of a list report, stopping at the first
      error. */
  method CheckEntries(num: NumberSyntax, entries: seq<Value>) returns (r: Check)
    ensures r == FirstFailure(EntryChecks(num, entries))
  {
    ghost var checks := EntryChecks(num, entries);
    var i := 0;
    while i < |entries|
      invariant 0 <= i <= |entries|
      invariant FirstFailure(checks[..i]) == Pass
    {
      r := CheckEntry(num, entries[i], i);
      FirstFailureNext(checks, i);
      if r != Pass {
        FirstFailureStops(checks, i + 1);
        return;
      }
      i := i + 1;
    }
    assert checks[..i] == checks;
    r := Pass;
  }

  /** Everything the validator demands of one position. */
  predicate InfoWellFormed(num: NumberSyntax, d: map<string, Value>) {
    && (forall f :: f in InfoRequired ==> f in d && Truthy(d[f]))
    && CodeOk(d["pair_side"])
    && CodeOk(d["pair_margin_type"])
    && InfoNumbersOk(num, d)
  }

  /** Everything the validator demands of one trader: its fields and a
      non-empty list of well-formed positions. */
  predicate TraderWellFormed(num: NumberSyntax, d: map<string, Value>) {
    && (forall f :: f in TraderRequired ==> f in d && Truthy(d[f]))
    && "infos" in d && d["infos"].VList? && d["infos"].items != []
    && forall j :: 0 <= j < |d["infos"].items| ==>
         d["infos"].items[j].VDict? && InfoWellFormed(num, d["infos"].items[j].fields)
  }

  /** A report is a single well-formed trader, or a non-empty list of them. */
  predicate HoldingReportWellFormed(num: NumberSyntax, data: Value) {
    || (data.VDict? && TraderWellFormed(num, data.fields))
    || (data.VList? && data.items != []
        && forall i :: 0 <= i < |data.items| ==> data.items[i].VDict? && TraderWellFormed(num, data.items[i].fields))
  }

  lemma {:induction false} InfoAccepted(num: NumberSyntax, info: Value, prefix: string)
    ensures InfoCheck(num, info, prefix) == Pass <==> info.VDict? && InfoWellFormed(num, info.fields)
  {
    if info.VDict? {
      NoneMissingIffAllTruthy(info.fields, InfoRequired);
    }
  }

  lemma {:induction false} TraderAccepted(num: NumberSyntax, d: map<string, Value>, index: Option<nat>)
    ensures TraderCheck(num, d, index) == Pass <==> TraderWellFormed(num, d)
  {
    NoneMissingIffAllTruthy(d, TraderRequired);
    var infos := Get(d, "infos");
    if MissingFields(d, TraderRequired) == {} && Truthy(infos) && infos.VList? {
      var checks := InfoChecks(num, infos.items, index);
      FirstFailureSpec(checks);
      forall j | 0 <= j < |infos.items|
        ensures checks[j] == Pass <==> infos.items[j].VDict? && InfoWellFormed(num, infos.items[j].fields)
      {
        InfoAccepted(num, infos.items[j], InfoPrefix(index, j));
      }
    }
  }

  /** A report is accepted exactly when it is well-formed. */
  lemma {:induction false} HoldingReportAccepted(num: NumberSyntax, data: Value)
    ensures HoldingReportCheck(num, data) == Pass <==> HoldingReportWellFormed(num, data)
  {
    match data {
      case VDict(d) =>
        TraderAccepted(num, d, None);
      case VList(entries) =>
        if entries != [] {
          var checks := EntryChecks(num, entries);
          FirstFailureSpec(checks);
          forall i | 0 <= i < |entries|
            ensures checks[i] == Pass <==> entries[i].VDict? && TraderWellFormed(num, entries[i].fields)
          {
            if entries[i].VDict? {
              TraderAccepted(num, entries[i].fields, Some(i));
            }
          }
        }
      case _ =>
    }
  }

  /** The error of a rejected trader is the error of its first bad
      position, every position before it passing; that error names the
      trader and the position. */
  lemma {:induction false} FirstBadInfo(num: NumberSyntax, infos: seq<Value>, index: Option<nat>)
    requires FirstFailure(InfoChecks(num, infos, index)) != Pass
    ensures exists j :: (0 <= j < |infos|
      && InfoCheck(num, infos[j], InfoPrefix(index, j)) == FirstFailure(InfoChecks(num, infos, index))
      && forall k :: 0 <= k < j ==> InfoCheck(num, infos[k], InfoPrefix(index, k)) == Pass)
  {
    var checks := InfoChecks(num, infos, index);
    FirstFailureSpec(checks);
    var j :| 0 <= j < |checks| && checks[j] == FirstFailure(checks) && forall k :: 0 <= k < j ==> checks[k] == Pass;
    assert forall k :: 0 <= k < j ==> InfoCheck(num, infos[k], InfoPrefix(index, k)) == checks[k];
  }

  // ---------------------------------------------------------------------
  // The merged message of a trader

  /** `data.get(key) not in (None, "None", "null", "")`: the list
      formatter's test for showing a price. */
  predicate Shown(v: Value) {
    v != VNone && v != VStr("None") && v != VStr("null") && v != VStr("")
  }

  function TpLine(v: Value): string {
    "\U{2705}TP Price: $" + Str(v)
  }

  function SlLine(v: Value): string {
    "\U{1F6D1}SL Price: $" + Str(v)
  }

  /** The take-profit and stop-loss lines of a position in the list form. */
  function ShownLines(d: map<string, Value>): seq<string> {
    (if Shown(Get(d, "tp_price")) then [TpLine(Get(d, "tp_price"))] else [])
    + (if Shown(Get(d, "sl_price")) then [SlLine(Get(d, "sl_price"))] else [])
  }

  /** A text followed by its lines, if any, one per line. */
  function WithLines(text: string, lines: seq<string>): string {
    if lines == [] then text else text + "\n" + Join("\n", lines)
  }

  /** Whether a position's block can be built: `float()` raises on the ROI
      of anything else, and a non-dict has no `.get`. */
  predicate BlockBuilds(num: NumberSyntax, info: Value) {
    info.VDict? && FloatOf(num, GetOr(info.fields, "unrealized_pnl_percentage", VInt(0))).Some?
  }

  /** The printed fields of a position's block: the pair, the margin-type
      and side labels, the leverage to hundredths, the prices as given, the
      ROI as a percentage, and the take-profit and stop-loss lines. */
  datatype Position = Position(pair: string, margin: string, leverage: string, side: string,
                               entry: string, current: string, roi: string, lines: seq<string>)

  function PositionOf(num: NumberSyntax, info: Value): Position
    requires BlockBuilds(num, info)
  {
    var d := info.fields;
    Position(Str(GetOr(d, "pair", VStr(""))), MarginLabel(GetOr(d, "pair_margin_type", VStr(""))),
             FormatFloat(num, GetOr(d, "pair_leverage", VInt(0))), SideLabel(GetOr(d, "pair_side", VStr(""))),
             Str(GetOr(d, "entry_price", VInt(0))), Str(GetOr(d, "current_price", VInt(0))),
             FormatReal(FloatOf(num, GetOr(d, "unrealized_pnl_percentage", VInt(0))).value * 100.0),
             ShownLines(d))
  }

  /** The bold title of position number k: its number and pair. */
  function BlockTitle(k: nat, pair: string): string {
    "**" + NatToString(k) + ". " + pair + " "
  }

  /** The block of position number k (counted from 1). */
  function InfoBlock(k: nat, p: Position): string {
    var head :=
      BlockTitle(k, p.pair) + p.margin + " " + p.leverage + "X**\n"
      + "\U{27A1}\U{FE0F}Direction: " + p.side + "\n"
      + "\U{1F3AF}Entry Price: $" + p.entry + "\n"
      + "\U{1F4CA}Current Price: $" + p.current + "\n"
      + "\U{1F680}ROI: " + p.roi + "%";
    WithLines(head, p.lines) + "\n\n"
  }

  /** Whether every position's block can be built. */
  predicate BlocksBuild(num: NumberSyntax, infos: seq<Value>) {
    forall k :: 0 <= k < |infos| ==> BlockBuilds(num, infos[k])
  }

  function Positions(num: NumberSyntax, infos: seq<Value>): seq<Position>
    requires BlocksBuild(num, infos)
  {
    seq(|infos|, k requires 0 <= k < |infos| => PositionOf(num, infos[k]))
  }

  /** The blocks, numbered from 1 in order. */
  function Blocks(ps: seq<Position>): seq<string> {
    seq(|ps|, k requires 0 <= k < |ps| => InfoBlock(k + 1, ps[k]))
  }

  /** The texts one after the other. */
  function Concat(texts: seq<string>): string
    decreases |texts|
  {
    if texts == [] then "" else Concat(texts[..|texts| - 1]) + texts[|texts| - 1]
  }

  function ListHeader(name: string): string {
    "\U{26A1}\U{FE0F}" + name + " Trading Summary (Updated every 12 hours)\n\n"
  }

  /** The trader's name and link, with the formatter's defaults. */
  function TraderName(trader: map<string, Value>): string {
    Str(GetOr(trader, "trader_name", VStr("Trader")))
  }

  function TraderLink(trader: map<string, Value>): string {
    AboutLink(TraderName(trader), Str(GetOr(trader, "trader_detail_url", VStr(""))))
  }

  /** `format_holding_report_list_text(infos, trader, include_link)`: ""
      without positions; else the header and the blocks, trailing newlines
      stripped, then the link where included. */
  function HoldingListText(num: NumberSyntax, infos: seq<Value>, trader: map<string, Value>, includeLink: bool): string
    requires BlocksBuild(num, infos)
  {
    if infos == [] then ""
    else
      var text := RStripChar(ListHeader(TraderName(trader)) + Concat(Blocks(Positions(num, infos))), '\n');
      WithLink(text, TraderLink(trader), includeLink)
  }

  lemma {:induction false} BlocksBuildStep(num: NumberSyntax, infos: seq<Value>, k: int)
    requires 0 <= k < |infos|
    requires BlocksBuild(num, infos[..k]) && BlockBuilds(num, infos[k])
    ensures BlocksBuild(num, infos[..k + 1])
  {
    var next := infos[..k + 1];
    forall m | 0 <= m < |next| ensures BlockBuilds(num, next[m]) {
      if m < k {
        assert next[m] == infos[..k][m];
      }
    }
  }

  lemma {:induction false} PositionsStep(num: NumberSyntax, infos: seq<Value>, k: int)
    requires 0 <= k < |infos|
    requires BlocksBuild(num, infos[..k]) && BlocksBuild(num, infos[..k + 1])
    ensures Positions(num, infos[..k + 1]) == Positions(num, infos[..k]) + [PositionOf(num, infos[k])]
  {
    var next, prev := Positions(num, infos[..k + 1]), Positions(num, infos[..k]);
    forall m | 0 <= m < k ensures next[m] == prev[m] {
      assert infos[..k + 1][m] == infos[..k][m];
    }
  }

  lemma {:induction false} BlocksSnoc(ps: seq<Position>, p: Position)
    ensures Blocks(ps + [p]) == Blocks(ps) + [InfoBlock(|ps| + 1, p)]
  {
  }

  lemma {:induction false} ConcatSnoc(texts: seq<string>, t: string)
    ensures Concat(texts + [t]) == Concat(texts) + t
  {
    assert (texts + [t])[..|texts|] == texts;
  }

  lemma {:induction false} ListStep(num: NumberSyntax, infos: seq<Value>, k: int)
    requires 0 <= k < |infos| && BlocksBuild(num, infos[..k + 1])
    ensures BlocksBuild(num, infos[..k]) && BlockBuilds(num, infos[k])
    ensures Concat(Blocks(Positions(num, infos[..k + 1])))
      == Concat(Blocks(Positions(num, infos[..k]))) + InfoBlock(k + 1, PositionOf(num, infos[k]))
  {
    assert infos[..k + 1][k] == infos[k];
    forall m | 0 <= m < k ensures BlockBuilds(num, infos[..k][m]) {
      assert infos[..k][m] == infos[..k + 1][m];
    }
    PositionsStep(num, infos, k);
    BlocksSnoc(Positions(num, infos[..k]), PositionOf(num, infos[k]));
    ConcatSnoc(Blocks(Positions(num, infos[..k])), InfoBlock(k + 1, PositionOf(num, infos[k])));
  }

  lemma {:induction false} AppendAssoc(a: string, b: string, c: string)
    ensures (a + b) + c == a + (b + c)
  {
  }

  /** The list formatter's loop: the header, then one block per position,
      numbered from 1; None where a block raises. */
  method FormatHoldingReportList(num: NumberSyntax, infos: seq<Value>, trader: map<string, Value>, includeLink: bool)
    returns (text: Option<string>)
    ensures text.Some? <==> BlocksBuild(num, infos)
    ensures text.Some? ==> text.value == HoldingListText(num, infos, trader, includeLink)
  {
    if infos == [] {
      return Some("");
    }
    var name := TraderName(trader);
    var acc := ListHeader(name);
    var k := 0;
    while k < |infos|
      invariant 0 <= k <= |infos|
      invariant BlocksBuild(num, infos[..k])
      invariant acc == ListHeader(name) + Concat(Blocks(Positions(num, infos[..k])))
    {
      if !BlockBuilds(num, infos[k]) {
        return None;
      }
      var p := PositionOf(num, infos[k]);
      BlocksBuildStep(num, infos, k);
      ListStep(num, infos, k);
      AppendAssoc(ListHeader(name), Concat(Blocks(Positions(num, infos[..k]))), InfoBlock(k + 1, p));
      acc := acc + InfoBlock(k + 1, p);
      k := k + 1;
    }
    assert infos[..k] == infos;
    acc := RStripChar(acc, '\n');
    text := Some(WithLink(acc, TraderLink(trader), includeLink));
  }

  /** The blocks are numbered 1, 2, ... in input order, each naming its
      position's pair. */
  lemma {:induction false} BlocksNumbered(num: NumberSyntax, infos: seq<Value>, k: int)
    requires BlocksBuild(num, infos) && 0 <= k < |infos|
    ensures infos[k].VDict?
    ensures StartsWith(Blocks(Positions(num, infos))[k], BlockTitle(k + 1, Str(GetOr(infos[k].fields, "pair", VStr("")))))
  {
    var p := Positions(num, infos)[k];
    BlockStartsWithTitle(k + 1, p);
  }

  lemma {:induction false} BlockStartsWithTitle(k: nat, p: Position)
    ensures StartsWith(InfoBlock(k, p), BlockTitle(k, p.pair))
  {
    var title := BlockTitle(k, p.pair);
    assert InfoBlock(k, p)[..|title|] == title;
  }

  /** A take-profit line is shown exactly when the price is not None,
      "None", "null" or "", and likewise the stop-loss line, take-profit
      first. */
  lemma {:induction false} ShownLinesIff(d: map<string, Value>)
    ensures TpLine(Get(d, "tp_price")) in ShownLines(d) <==> Shown(Get(d, "tp_price"))
    ensures SlLine(Get(d, "sl_price")) in ShownLines(d) <==> Shown(Get(d, "sl_price"))
    ensures |ShownLines(d)| == 2 ==> ShownLines(d)[0] == TpLine(Get(d, "tp_price"))
  {
    var tp, sl := TpLine(Get(d, "tp_price")), SlLine(Get(d, "sl_price"));
    assert tp[0] != sl[0];
  }

  /** Without the link the text ends in no newline; with it, the link
      follows after one blank line. */
  lemma {:induction false} HoldingListLink(num: NumberSyntax, infos: seq<Value>, trader: map<string, Value>)
    requires infos != [] && BlocksBuild(num, infos)
    ensures var plain := HoldingListText(num, infos, trader, false);
      && (plain == [] || plain[|plain| - 1] != '\n')
      && HoldingListText(num, infos, trader, true) == plain + "\n\n" + TraderLink(trader)
  {
  }

  /** Well-formed positions always format. */
  lemma {:induction false} WellFormedBlocksBuild(num: NumberSyntax, infos: seq<Value>)
    requires forall j :: 0 <= j < |infos| ==> infos[j].VDict? && InfoWellFormed(num, infos[j].fields)
    ensures BlocksBuild(num, infos)
  {
    forall k | 0 <= k < |infos| ensures BlockBuilds(num, infos[k]) {
      var d := infos[k].fields;
      assert "unrealized_pnl_percentage" in InfoRequired;
      assert GetOr(d, "unrealized_pnl_percentage", VInt(0)) == Get(d, "unrealized_pnl_percentage");
    }
  }

  // ---------------------------------------------------------------------
  // The single-position message

  /** The text Python gives `v * 100` before formatting it: a number is
      multiplied, a string or list repeated a hundred times; None where it
      raises TypeError. */
  function RoiTimes100(num: NumberSyntax, v: Value): Option<string> {
    match v
    case VNone => None
    case VBool(b) => Some(FormatReal(if b then 100.0 else 0.0))
    case VInt(i) => Some(FormatReal(i as real * 100.0))
    case VFloat(x, _) => Some(FormatReal(x * 100.0))
    case VStr(s) => Some(FormatFloat(num, VStr(Repeat(s, 100))))
    case VList(items) => Some(FormatFloat(num, VList(Repeat(items, 100))))
    case VDict(_) => None
  }

  function Repeat<T>(s: seq<T>, n: nat): seq<T> {
    if n == 0 then [] else Repeat(s, n - 1) + s
  }

  /** Whether the single-position message can be built. */
  predicate RoiBuilds(num: NumberSyntax, d: map<string, Value>) {
    RoiTimes100(num, GetOr(d, "unrealized_pnl_percentage", VInt(0))).Some?
  }

  /** `format_holding_report_text(data, include_link)`, used for a trader
      whose `infos` is not a non-empty list: the prices are shown where
      truthy. */
  function HoldingText(num: NumberSyntax, d: map<string, Value>, includeLink: bool): string
    requires RoiBuilds(num, d)
  {
    var roi := RoiTimes100(num, GetOr(d, "unrealized_pnl_percentage", VInt(0))).value;
    var text :=
      "\U{1F4CA} **Holding Report**\n\n"
      + "\U{26A1}\U{FE0F}**" + TraderName(d) + "** Trading Summary (Updated every 12 hours)\n\n"
      + "**" + Str(GetOr(d, "pair", VStr(""))) + "** " + MarginLabel(GetOr(d, "pair_margin_type", VStr("")))
      + " **" + FormatFloat(num, GetOr(d, "pair_leverage", VInt(0))) + "X**\n"
      + "Direction: " + SideLabel(GetOr(d, "pair_side", VStr(""))) + "\n"
      + "Entry Price: $" + Str(GetOr(d, "entry_price", VInt(0))) + "\n"
      + "Current Price: $" + Str(GetOr(d, "current_price", VInt(0))) + "\n"
      + "ROI: " + roi + "%";
    var lines :=
      (if Truthy(Get(d, "tp_price")) then [TpLine(Get(d, "tp_price"))] else [])
      + (if Truthy(Get(d, "sl_price")) then [SlLine(Get(d, "sl_price"))] else []);
    WithLink(WithLines(text, lines), TraderLink(d), includeLink)
  }

  /** A numeric ROI is printed as a percentage: the value times 100, to
      hundredths; only None and a dict make the single form raise. */
  lemma {:induction false} HoldingRoiPercent(num: NumberSyntax, x: real, repr: string, v: Value)
    ensures RoiTimes100(num, VFloat(x, repr)) == Some(FormatReal(x * 100.0))
    ensures RoiTimes100(num, VInt(0)) == Some("0")
    ensures RoiTimes100(num, v).None? <==> v.VNone? || v.VDict?
  {
    assert RoundHalfEven(0.0) == 0;
  }

  // ---------------------------------------------------------------------
  // The background job

  /** Whether a trader's message can be built: every block of a non-empty
      list of positions, or the single form's ROI. */
  predicate TextBuilds(num: NumberSyntax, d: map<string, Value>) {
    var infos := Get(d, "infos");
    if Truthy(infos) && infos.VList? then BlocksBuild(num, infos.items) else RoiBuilds(num, d)
  }

  /** The message of a trader for a target: merged over the positions when
      `infos` is a non-empty list, else the single-position form. */
  function TraderText(num: NumberSyntax, d: map<string, Value>, includeLink: bool): string
    requires TextBuilds(num, d)
  {
    var infos := Get(d, "infos");
    if Truthy(infos) && infos.VList? then HoldingListText(num, infos.items, d, includeLink)
    else HoldingText(num, d, includeLink)
  }

  /** One text send per target, in target order: the message with the link
      where the target's jump is "1", else without. */
  function TargetSends(plain: string, linked: string, targets: seq<Target>, channels: map<int, Permissions>): seq<Send> {
    seq(|targets|, i requires 0 <= i < |targets| =>
      SendText(channels, targets[i].channel, if targets[i].jump == "1" then linked else plain))
  }

  lemma {:induction false} TargetSendsStep(plain: string, linked: string, targets: seq<Target>, i: int, channels: map<int, Permissions>)
    requires 0 <= i < |targets|
    ensures TargetSends(plain, linked, targets[..i + 1], channels)
      == TargetSends(plain, linked, targets[..i], channels)
         + [SendText(channels, targets[i].channel, if targets[i].jump == "1" then linked else plain)]
  {
  }

  /** The send loop: per target, the message with or without the link,
      in target order. */
  method SendToTargets(plain: string, linked: string, targets: seq<Target>, channels: map<int, Permissions>)
    returns (tasks: seq<Send>)
    ensures tasks == TargetSends(plain, linked, targets, channels)
  {
    tasks := [];
    var i := 0;
    while i < |targets|
      invariant 0 <= i <= |targets|
      invariant tasks == TargetSends(plain, linked, targets[..i], channels)
    {
      var text := if targets[i].jump == "1" then linked else plain;
      TargetSendsStep(plain, linked, targets, i, channels);
      tasks := tasks + [SendText(channels, targets[i].channel, text)];
      i := i + 1;
    }
    assert targets[..i] == targets;
  }

  /** `send_holding_to_all_targets`: one task per target; a message that
      raises while being built ends the whole job before any send. The
      message depends on the target only through its jump flag, so the two
      forms are built once. */
  method SendHoldingToAllTargets(num: NumberSyntax, d: map<string, Value>, targets: seq<Target>, channels: map<int, Permissions>)
    returns (built: bool, tasks: seq<Send>)
    ensures built <==> targets == [] || TextBuilds(num, d)
    ensures built && targets != [] ==>
      tasks == TargetSends(TraderText(num, d, false), TraderText(num, d, true), targets, channels)
    ensures built && targets == [] ==> tasks == []
  {
    if targets == [] {
      return true, [];
    }
    if !TextBuilds(num, d) {
      return false, [];
    }
    var plain, linked := TraderText(num, d, false), TraderText(num, d, true);
    tasks := SendToTargets(plain, linked, targets, channels);
    built := true;
  }

  /** The sends for one trader; None where the job raises on it (not a
      dict, no uid, or a message that cannot be built). A trader without
      targets yields no sends. `resp` gives the social-graph response for a
      trader uid. */
  function TraderSends(num: NumberSyntax, trader: Value, resp: string -> Option<Response>,
                       channels: map<int, Permissions>): Option<seq<Send>>
  {
    if !trader.VDict? || "trader_uid" !in trader.fields then None
    else
      var d := trader.fields;
      var uid := Str(d["trader_uid"]);
      var targets := Targets(num, uid, resp(uid));
      if targets == [] then Some([])
      else if TextBuilds(num, d) then Some(TargetSends(TraderText(num, d, false), TraderText(num, d, true), targets, channels))
      else None
  }

  /** The sends so far and whether the job has stopped on an exception. */
  datatype Outcome = Outcome(sends: seq<Send>, stopped: bool)

  /** One more trader: skipped once stopped, else its sends are added or
      the job stops. */
  function NextTrader(prev: Outcome, num: NumberSyntax, trader: Value, resp: string -> Option<Response>,
                      channels: map<int, Permissions>): Outcome
  {
    if prev.stopped then prev
    else
      match TraderSends(num, trader, resp, channels)
      case None => Outcome(prev.sends, true)
      case Some(s) => Outcome(prev.sends + s, false)
  }

  /** The job over the traders in order. */
  function HoldingRun(num: NumberSyntax, traders: seq<Value>, resp: string -> Option<Response>,
                      channels: map<int, Permissions>): Outcome
    decreases |traders|
  {
    if traders == [] then Outcome([], false)
    else NextTrader(HoldingRun(num, traders[..|traders| - 1], resp, channels), num, traders[|traders| - 1], resp, channels)
  }

  /** `data if isinstance(data, list) else [data]`. */
  function TradersOf(data: Value): seq<Value> {
    if data.VList? then data.items else [data]
  }

  lemma {:induction false} HoldingRunStep(num: NumberSyntax, traders: seq<Value>, k: int, resp: string -> Option<Response>,
                       channels: map<int, Permissions>)
    requires 0 <= k < |traders|
    ensures HoldingRun(num, traders[..k + 1], resp, channels)
      == NextTrader(HoldingRun(num, traders[..k], resp, channels), num, traders[k], resp, channels)
  {
    assert traders[..k + 1][..k] == traders[..k];
  }

  /** Once stopped, the later traders change nothing. */
  lemma {:induction false} StoppedStays(num: NumberSyntax, traders: seq<Value>, k: int, resp: string -> Option<Response>,
                                        channels: map<int, Permissions>)
    requires 0 <= k <= |traders| && HoldingRun(num, traders[..k], resp, channels).stopped
    ensures HoldingRun(num, traders, resp, channels) == HoldingRun(num, traders[..k], resp, channels)
    decreases |traders| - k
  {
    if k < |traders| {
      HoldingRunStep(num, traders, k, resp, channels);
      StoppedStays(num, traders, k + 1, resp, channels);
    } else {
      assert traders[..k] == traders;
    }
  }

  /** `process_holding_report_discord`: per trader, the targets, then one
      merged message per target; a trader without targets is skipped, and
      an exception ends the job with the sends made so far. */
  method ProcessHoldingReport(num: NumberSyntax, data: Value, resp: string -> Option<Response>,
                              channels: map<int, Permissions>)
    returns (sends: seq<Send>)
    ensures sends == HoldingRun(num, TradersOf(data), resp, channels).sends
  {
    var traders := if data.VList? then data.items else [data];
    sends := [];
    var k := 0;
    while k < |traders|
      invariant 0 <= k <= |traders|
      invariant HoldingRun(num, traders[..k], resp, channels) == Outcome(sends, false)
    {
      HoldingRunStep(num, traders, k, resp, channels);
      var trader := traders[k];
      if !trader.VDict? || "trader_uid" !in trader.fields {
        StoppedStays(num, traders, k + 1, resp, channels);
        return;
      }
      var d := trader.fields;
      var uid := Str(d["trader_uid"]);
      var targets := GetPushTargets(num, uid, resp(uid));
      if targets != [] {
        var built, tasks := SendHoldingToAllTargets(num, d, targets, channels);
        if !built {
          StoppedStays(num, traders, k + 1, resp, channels);
          return;
        }
        sends := sends + tasks;
      }
      k := k + 1;
    }
    assert traders[..k] == traders;
  }

  /** Every target of a trader gets one message, posted exactly where the
      bot sees the channel and may post; the message carries the link
      exactly where the target's jump is "1". */
  lemma {:induction false} TraderFanOut(num: NumberSyntax, trader: Value, resp: string -> Option<Response>,
                     channels: map<int, Permissions>, i: int)
    requires TraderSends(num, trader, resp, channels).Some?
    requires trader.VDict? && "trader_uid" in trader.fields
    requires var uid := Str(trader.fields["trader_uid"]); 0 <= i < |Targets(num, uid, resp(uid))|
    ensures var uid := Str(trader.fields["trader_uid"]);
      var t := Targets(num, uid, resp(uid))[i];
      var s := TraderSends(num, trader, resp, channels).value;
      && TextBuilds(num, trader.fields)
      && |s| == |Targets(num, uid, resp(uid))|
      && !s[i].PostFile?
      && (Posted(s[i]) <==> t.channel in channels && channels[t.channel].sendMessages)
      && (Posted(s[i]) ==> s[i].text == TraderText(num, trader.fields, t.jump == "1"))
  {
  }

  /** A trader without targets adds nothing, and the job goes on with the
      next trader. */
  lemma {:induction false} NoTargetsSkipped(num: NumberSyntax, traders: seq<Value>, trader: Value, resp: string -> Option<Response>,
                         channels: map<int, Permissions>)
    requires trader.VDict? && "trader_uid" in trader.fields
    requires var uid := Str(trader.fields["trader_uid"]); Targets(num, uid, resp(uid)) == []
    ensures HoldingRun(num, traders + [trader], resp, channels) == HoldingRun(num, traders, resp, channels)
  {
    assert (traders + [trader])[..|traders|] == traders;
    assert TraderSends(num, trader, resp, channels) == Some([]);
    assert HoldingRun(num, traders, resp, channels).sends + [] == HoldingRun(num, traders, resp, channels).sends;
  }

  /** Well-formed traders never stop the job. */
  lemma {:induction false} WellFormedRunsToEnd(num: NumberSyntax, traders: seq<Value>, resp: string -> Option<Response>,
                                               channels: map<int, Permissions>)
    requires forall i :: 0 <= i < |traders| ==> traders[i].VDict? && TraderWellFormed(num, traders[i].fields)
    ensures !HoldingRun(num, traders, resp, channels).stopped
    decreases |traders|
  {
    if traders != [] {
      WellFormedRunsToEnd(num, traders[..|traders| - 1], resp, channels);
      WellFormedTraderSends(num, traders[|traders| - 1], resp, channels);
    }
  }

  /** An accepted report never stops the job: every trader has a uid and
      every message can be built. */
  lemma {:induction false} AcceptedRunsToEnd(num: NumberSyntax, data: Value, resp: string -> Option<Response>,
                          channels: map<int, Permissions>)
    requires HoldingReportCheck(num, data) == Pass
    ensures !HoldingRun(num, TradersOf(data), resp, channels).stopped
  {
    HoldingReportAccepted(num, data);
    WellFormedRunsToEnd(num, TradersOf(data), resp, channels);
  }

  lemma {:induction false} WellFormedTraderSends(num: NumberSyntax, trader: Value, resp: string -> Option<Response>,
                              channels: map<int, Permissions>)
    requires trader.VDict? && TraderWellFormed(num, trader.fields)
    ensures TraderSends(num, trader, resp, channels).Some?
  {
    var d := trader.fields;
    assert "trader_uid" in TraderRequired;
    WellFormedBlocksBuild(num, d["infos"].items);
  }

  /** `handle_holding_report`: the body is logged without calling `.keys()`
      on a non-dict, so any decoded body reaches the validator. */
  function HandleHoldingReport(num: NumberSyntax, header: Option<string>, body: Option<Value>, schedulerUp: bool): (r: Run)
    ensures r.scheduled <==> (AcceptsJson(header) && body.Some? && HoldingReportWellFormed(num, body.value) && schedulerUp)
    ensures r.reply.Rejected? ==> body.Some? && HoldingReportCheck(num, body.value) == Fail(r.reply.rejection)
  {
    var validate := v => HoldingReportCheck(num, v);
    if body.Some? then
      HoldingReportAccepted(num, body.value);
      Handle(header, body, false, validate, schedulerUp)
    else Handle(header, body, false, validate, schedulerUp)
  }
}
