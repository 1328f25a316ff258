/** What the full parser makes of any text, and of the text a given switch state prints. */
module FullReportProofs {
  import opened Wrappers
  import opened Text
  import opened Numbers
  import opened Ibswinfo
  import opened FullReport

  lemma {:induction false} RunAppend(st: Scan, a: seq<Item>, b: seq<Item>)
    ensures Run(st, a + b) == match Run(st, a) case Err => Err case Ok(mid) => Run(mid, b)
    decreases a
  {
    if a == [] {
      assert a + b == b;
    } else {
      assert (a + b)[0] == a[0] && (a + b)[1..] == a[1..] + b;
      match Step(st, a[0])
      case Err =>
      case Ok(next) => RunAppend(next, a[1..], b);
    }
  }

  lemma RunSnoc(st: Scan, items: seq<Item>)
    requires items != []
    ensures
      var n := |items| - 1;
      Run(st, items) == match Run(st, items[..n]) case Err => Err case Ok(mid) => Step(mid, items[n])
  {
    var n := |items| - 1;
    assert items == items[..n] + [items[n]];
    RunAppend(st, items[..n], [items[n]]);
  }

  // ---------------------------------------------------------------- any text

  /** The value of the last row with this field. */
  function Last(items: seq<Item>, field: Field): Option<string> {
    if items == [] then None
    else
      var item := items[|items| - 1];
      if item.Row? && FieldOf(item.key) == field then Some(item.value) else Last(items[..|items| - 1], field)
  }

  function LastNumber(items: seq<Item>, field: Field): Option<real> {
    match Last(items, field)
    case None => None
    case Some(v) => ParseFloat(v)
  }

  function DividersIn(items: seq<Item>): nat {
    if items == [] then 0
    else DividersIn(items[..|items| - 1]) + (if items[|items| - 1].Divider? then 1 else 0)
  }

  function RowValue(item: Item, field: Field, otherwise: string): string {
    if item.Row? && FieldOf(item.key) == field then item.value else otherwise
  }

  /** What each part of a row's step leaves alone. */
  lemma PsuStepFrame(st: Scan, key: string, value: string)
    requires PsuStep(st, key, value).Ok?
    ensures
      var next := PsuStep(st, key, value).value;
      next.data == st.data && next.dividers == st.dividers
  {
  }

  lemma TempStepFrame(st: Scan, key: string, value: string)
    requires TempStep(st, key, value).Ok?
    ensures
      var next := TempStep(st, key, value).value;
      next == st.(data := st.data.(temp := if FieldOf(key).Temperature? then ParseFloat(value) else st.data.temp))
  {
  }

  lemma FanStepFrame(st: Scan, key: string, value: string)
    requires FanStep(st, key, value).Ok?
    ensures
      var next := FanStep(st, key, value).value;
      next == st.(data := st.data.(fanStatus := next.data.fanStatus, fans := next.data.fans))
  {
  }

  /** How a row's step decomposes. */
  lemma RowStepParts(st: Scan, key: string, value: string) returns (a: Scan, skipped: bool)
    requires RowStep(st, key, value).Ok?
    ensures
      var next := RowStep(st, key, value).value;
      && skipped == (HasPrefix(key, "uptime") && ParseUptime(value).None?)
      && a == st.(data := StaticField(st.data, FieldOf(key), value).(uptime := a.data.uptime))
      && (skipped ==> next == a)
      && (!skipped ==>
            && PsuStep(a, key, value).Ok?
            && next.psuId == PsuStep(a, key, value).value.psuId
            && next.psus == PsuStep(a, key, value).value.psus
            && next.dividers == st.dividers
            && next.data == a.data.(
                 temp := if FieldOf(key).Temperature? then ParseFloat(value) else st.data.temp,
                 fanStatus := next.data.fanStatus, fans := next.data.fans))
  {
    var data := StaticField(st.data, FieldOf(key), value);
    skipped := HasPrefix(key, "uptime") && ParseUptime(value).None?;
    if skipped {
      a := st.(data := data);
    } else {
      a := st.(data := if HasPrefix(key, "uptime") then data.(uptime := ParseUptime(value).value) else data);
      PsuStepFrame(a, key, value);
      var b := PsuStep(a, key, value).value;
      TempStepFrame(b, key, value);
      FanStepFrame(TempStep(b, key, value).value, key, value);
    }
  }

  lemma StepScalars(st: Scan, item: Item)
    requires Step(st, item).Ok?
    ensures
      var next := Step(st, item).value;
      && next.data.partNumber == RowValue(item, PartNumber, st.data.partNumber)
      && next.data.serialNumber == RowValue(item, SerialNumber, st.data.serialNumber)
      && next.data.psid == RowValue(item, Psid, st.data.psid)
      && next.data.firmwareVersion == RowValue(item, FirmwareVersion, st.data.firmwareVersion)
      && next.dividers == st.dividers + (if item.Divider? then 1 else 0)
      && next.data.temp == if item.Row? && FieldOf(item.key).Temperature? then ParseFloat(item.value) else st.data.temp
  {
    hide ParseFloat, ParseUptime, FindPsu, FindFan, RowStep;
    if item.Row? {
      var a, skipped := RowStepParts(st, item.key, item.value);
      if FieldOf(item.key).Temperature? {
        assert item.key[0] == 't';
      }
    }
  }

  lemma RunNone(st: Scan)
    ensures Run(st, []) == Ok(st)
  {
  }

  /** The chassis fan status: the last `fan status` row from the fourth divider on. */
  function LastChassis(items: seq<Item>): Option<string> {
    if items == [] then None
    else
      var front, item := items[..|items| - 1], items[|items| - 1];
      if item.Row? && FieldOf(item.key).FanStatus? && DividersIn(front) >= 4 then Some(item.value)
        else LastChassis(front)
  }

  function LastUptime(items: seq<Item>): Option<real> {
    if items == [] then None
    else
      var item := items[|items| - 1];
      if item.Row? && HasPrefix(item.key, "uptime") && ParseUptime(item.value).Some? then ParseUptime(item.value)
      else LastUptime(items[..|items| - 1])
  }

  /** The fan rows, in order; an empty speed is not a number. */
  function FansOf(items: seq<Item>): seq<Fan> {
    if items == [] then []
    else
      var item := items[|items| - 1];
      FansOf(items[..|items| - 1]) + FanOf(item)
  }

  function FanOf(item: Item): seq<Fan> {
    if item.Row? && !Unreadable(item) && FindFan(item.key).Some?
    then [Fan(FindFan(item.key).value, if item.value == "" then None else ParseFloat(item.value))]
    else []
  }

  lemma FanStatusIsNoUptime(key: string)
    requires FieldOf(key).FanStatus?
    ensures !HasPrefix(key, "uptime")
  {
    assert key[0] == 'f';
  }

  lemma StepChassis(st: Scan, item: Item)
    requires Step(st, item).Ok?
    ensures
      var next := Step(st, item).value;
      && next.data.fanStatus ==
           (if item.Row? && FieldOf(item.key).FanStatus? && st.dividers >= 4 then item.value else st.data.fanStatus)
      && next.data.uptime ==
           (if item.Row? && HasPrefix(item.key, "uptime") && ParseUptime(item.value).Some?
            then ParseUptime(item.value).value else st.data.uptime)
      && next.data.fans == st.data.fans + FanOf(item)
  {
    hide ParseFloat, ParseUptime, FindPsu, FindFan, FieldOf, HasPrefix, PsuStep;
    if item.Row? && !Unreadable(item) {
      var data := StaticField(st.data, FieldOf(item.key), item.value);
      var timed := if HasPrefix(item.key, "uptime") then data.(uptime := ParseUptime(item.value).value) else data;
      PsuStepFrame(st.(data := timed), item.key, item.value);
    }
    if item.Row? && FieldOf(item.key).FanStatus? {
      FanStatusIsNoUptime(item.key);
    }
  }

  /**
   * In every text that parses, the scalar fields come from the last row carrying their key, the chassis fan status
   * from the last such row after the fourth divider, and the fans from all fan rows.
   */
  lemma {:induction false} ScalarsAreLastRows(items: seq<Item>)
    requires Run(START, items).Ok?
    ensures
      var st := Run(START, items).value;
      && st.data.partNumber == Last(items, PartNumber).GetOr("")
      && st.data.serialNumber == Last(items, SerialNumber).GetOr("")
      && st.data.psid == Last(items, Psid).GetOr("")
      && st.data.firmwareVersion == Last(items, FirmwareVersion).GetOr("")
      && st.data.temp == LastNumber(items, Temperature)
      && st.dividers == DividersIn(items)
      && st.data.fanStatus == LastChassis(items).GetOr("")
      && st.data.uptime == LastUptime(items).GetOr(0.0)
      && st.data.fans == FansOf(items)
  {
    hide Step, FieldOf, ParseFloat, ParseUptime, HasPrefix, FanOf, Run;
    if items != [] {
      var n := |items| - 1;
      RunSnoc(START, items);
      ScalarsAreLastRows(items[..n]);
      StepScalars(Run(START, items[..n]).value, items[n]);
      StepChassis(Run(START, items[..n]).value, items[n]);
    } else {
      RunNone(START);
    }
  }

  /** A row that opens the record of a power supply. */
  predicate IsHeader(item: Item) {
    item.Row? && FindPsu(item.key).Some?
  }

  /** A header row, which is not also an uptime row, and whatever follows up to the next header. */
  datatype Block = Block(key: string, status: string, body: seq<Item>) {
    predicate Valid() {
      && FindPsu(key).Some? && !HasPrefix(key, "uptime")
      && forall i | 0 <= i < |body| :: !IsHeader(body[i])
    }

    function Id(): string
      requires Valid()
    {
      FindPsu(key).value
    }

    function Items(): seq<Item> {
      [Row(key, status)] + body
    }

    /** The record the block describes: each field from the last row of the block that carries it. */
    function Record(): PowerSupply {
      Overlay(BLANK_PSU.(status := status), body)
    }
  }

  function Overlay(psu: PowerSupply, body: seq<Item>): PowerSupply {
    PowerSupply(psu.id, psu.status,
      Last(body, DcPower).GetOr(psu.dcPower),
      Last(body, FanStatus).GetOr(psu.fanStatus),
      if Last(body, Power).Some? then LastNumber(body, Power) else psu.powerW)
  }

  lemma {:induction false} FindPsuIsADigit(key: string)
    requires FindPsu(key).Some?
    ensures |FindPsu(key).value| == 1 && IsDigit(FindPsu(key).value[0]) && FindPsu(key).value != ""
  {
    if !(HasPrefix(key, "PSU") && IsDigit(key[3]) && HasPrefix(key[4..], " status")) {
      FindPsuIsADigit(key[1..]);
    }
  }

  lemma SameKey<V>(m: map<string, V>, k: string)
    ensures k in m ==> m == m[k := m[k]]
  {
  }

  /** A row without a header updates the open record, and only that one, and only before the fourth divider. */
  lemma StepWithoutHeader(st: Scan, item: Item)
    requires Step(st, item).Ok? && !IsHeader(item)
    requires st.psuId != "" && st.dividers < 4 ==> st.psuId in st.psus
    ensures
      var next := Step(st, item).value;
      && next.psuId == st.psuId
      && next.psus ==
         if st.psuId == "" || st.dividers >= 4 || item.Divider? then st.psus
         else st.psus[st.psuId := Overlay(st.psus[st.psuId], [item])]
  {
    hide RowStep, StaticField, ParseUptime, HasPrefix, FindPsu;
    if item.Row? {
      var a, skipped := RowStepParts(st, item.key, item.value);
      SameKey(st.psus, st.psuId);
      RowWithoutHeader(a, item, skipped);
    }
  }

  /** What a row that is no header does to the table of supplies; a skipped row is about the uptime. */
  lemma RowWithoutHeader(st: Scan, item: Item, skipped: bool)
    requires item.Row? && !IsHeader(item) && (skipped ==> HasPrefix(item.key, "uptime"))
    requires !skipped ==> PsuStep(st, item.key, item.value).Ok?
    requires st.psuId != "" && st.dividers < 4 ==> st.psuId in st.psus
    ensures
      var psus := if skipped then st.psus else PsuStep(st, item.key, item.value).value.psus;
      psus == if st.psuId == "" || st.dividers >= 4 then st.psus
        else st.psus[st.psuId := Overlay(st.psus[st.psuId], [item])]
    ensures !skipped ==> PsuStep(st, item.key, item.value).value.psuId == st.psuId
  {
    hide FindPsu;
    LastOne(item, DcPower);
    LastOne(item, FanStatus);
    LastOne(item, Power);
    SameKey(st.psus, st.psuId);
    if FieldOf(item.key) in {DcPower, FanStatus, Power} {
      assert item.key[0] != 'u';
    }
  }

  lemma LastOne(item: Item, field: Field)
    ensures Last([item], field) == if item.Row? && FieldOf(item.key) == field then Some(item.value) else None
  {
    assert [item][..0] == [];
  }

  lemma OverlaySnoc(psu: PowerSupply, body: seq<Item>)
    requires body != []
    ensures Overlay(psu, body) == Overlay(Overlay(psu, body[..|body| - 1]), [body[|body| - 1]])
  {
    var item := body[|body| - 1];
    LastOne(item, DcPower);
    LastOne(item, FanStatus);
    LastOne(item, Power);
  }

  /** Rows without a header only touch the record that is open. */
  lemma {:induction false} RunBody(st: Scan, body: seq<Item>)
    requires Run(st, body).Ok?
    requires forall i | 0 <= i < |body| :: !IsHeader(body[i])
    requires st.psuId != "" ==> st.psuId in st.psus
    requires st.dividers + DividersIn(body) < 4
    ensures
      var end := Run(st, body).value;
      && end.psuId == st.psuId && end.dividers == st.dividers + DividersIn(body)
      && end.psus == if st.psuId == "" then st.psus else st.psus[st.psuId := Overlay(st.psus[st.psuId], body)]
    decreases |body|
  {
    hide Step, Run, FieldOf, ParseFloat, IsHeader, Overlay, RowValue;
    if body == [] {
      RunNothing(st);
      SameKey(st.psus, st.psuId);
      OverlayNothing();
    } else {
      var n := |body| - 1;
      RunSnoc(st, body);
      assert DividersIn(body) == DividersIn(body[..n]) + (if body[n].Divider? then 1 else 0);
      RunBody(st, body[..n]);
      var mid := Run(st, body[..n]).value;
      StepScalars(mid, body[n]);
      StepWithoutHeader(mid, body[n]);
      if st.psuId != "" {
        OverlaySnoc(st.psus[st.psuId], body);
        OverlayDivider(Overlay(st.psus[st.psuId], body[..n]), body[n]);
      }
    }
  }

  lemma RunNothing(st: Scan)
    ensures Run(st, []) == Ok(st)
  {
  }

  lemma OverlayNothing()
    ensures forall psu :: Overlay(psu, []) == psu
  {
  }

  lemma OverlayDivider(psu: PowerSupply, item: Item)
    ensures item.Divider? ==> Overlay(psu, [item]) == psu
  {
    LastOne(item, DcPower);
    LastOne(item, FanStatus);
    LastOne(item, Power);
  }

  /** From the fourth divider on, no row touches a power supply. */
  lemma {:induction false} RunChassis(st: Scan, items: seq<Item>)
    requires Run(st, items).Ok? && st.dividers >= 4
    ensures Run(st, items).value.psus == st.psus
    decreases items
  {
    if items != [] {
      RunChassis(Step(st, items[0]).value, items[1..]);
    }
  }

  function BlocksItems(blocks: seq<Block>): seq<Item> {
    if blocks == [] then [] else BlocksItems(blocks[..|blocks| - 1]) + blocks[|blocks| - 1].Items()
  }

  ghost predicate DistinctBlocks(blocks: seq<Block>) {
    && (forall i | 0 <= i < |blocks| :: blocks[i].Valid())
    && (forall i, j | 0 <= i < j < |blocks| :: blocks[i].Id() != blocks[j].Id())
  }

  function Records(blocks: seq<Block>): PsuTable
    requires forall i | 0 <= i < |blocks| :: blocks[i].Valid()
  {
    if blocks == [] then map[]
    else
      var b := blocks[|blocks| - 1];
      Records(blocks[..|blocks| - 1])[b.Id() := b.Record()]
  }

  lemma {:induction false} RecordsKeys(blocks: seq<Block>, id: string)
    requires forall i | 0 <= i < |blocks| :: blocks[i].Valid()
    ensures id in Records(blocks) <==> exists i | 0 <= i < |blocks| :: blocks[i].Id() == id
  {
    if blocks != [] {
      RecordsKeys(blocks[..|blocks| - 1], id);
    }
  }

  lemma {:induction false} DividersAppend(a: seq<Item>, b: seq<Item>)
    ensures DividersIn(a + b) == DividersIn(a) + DividersIn(b)
    decreases |b|
  {
    if b == [] {
      assert a + b == a;
    } else {
      var n := |b| - 1;
      assert (a + b)[..|a + b| - 1] == a + b[..n];
      DividersAppend(a, b[..n]);
    }
  }

  /** No row of a header is one of the rows of its block. */
  lemma HeaderIsNoField(key: string)
    requires FindPsu(key).Some?
    ensures FieldOf(key) !in {DcPower, FanStatus, Power}
  {
    ThreeAreNoHeaders();
  }

  lemma ThreeAreNoHeaders()
    ensures FindPsu("DC power").None? && FindPsu("fan status").None? && FindPsu("power (W)").None?
  {
    NoPsuWithoutU("DC power");
    NoPsuWithoutU("fan status");
    NoPsuWithoutU("power (W)");
  }

  lemma {:induction false} NoPsuWithoutU(key: string)
    requires 'U' !in key
    ensures FindPsu(key).None?
  {
    if |key| >= 11 {
      assert key[2] != 'U';
      NoPsuWithoutU(key[1..]);
    }
  }

  /** A header not seen before opens a record holding just its status. */
  lemma StepHeader(st: Scan, b: Block)
    requires b.Valid() && b.Id() !in st.psus && st.dividers < 4
    ensures Step(st, Row(b.key, b.status)).Ok? ==>
      var next := Step(st, Row(b.key, b.status)).value;
      && next.psuId == b.Id() && next.dividers == st.dividers
      && next.psus == st.psus[b.Id() := BLANK_PSU.(status := b.status)]
  {
    hide RowStep, FindPsu, FieldOf, HasPrefix, ParseFloat, ParseUptime, StaticField;
    FindPsuIsADigit(b.key);
    HeaderIsNoField(b.key);
    if RowStep(st, b.key, b.status).Ok? {
      var a, skipped := RowStepParts(st, b.key, b.status);
    }
  }

  lemma RunBlock(st: Scan, b: Block)
    requires Run(st, b.Items()).Ok?
    requires b.Valid() && b.Id() !in st.psus
    requires st.dividers + DividersIn(b.body) < 4
    ensures
      var end := Run(st, b.Items()).value;
      && end.psus == st.psus[b.Id() := b.Record()] && end.psuId == b.Id()
      && end.dividers == st.dividers + DividersIn(b.body)
  {
    StepHeader(st, b);
    FindPsuIsADigit(b.key);
    assert b.Items()[1..] == b.body;
    RunBody(Step(st, Row(b.key, b.status)).value, b.body);
  }

  lemma {:induction false} RunBlocks(st: Scan, blocks: seq<Block>)
    requires Run(st, BlocksItems(blocks)).Ok?
    requires DistinctBlocks(blocks) && st.psus == map[] && st.psuId == ""
    requires st.dividers + DividersIn(BlocksItems(blocks)) < 4
    ensures
      var end := Run(st, BlocksItems(blocks)).value;
      && end.psus == Records(blocks) && end.dividers == st.dividers + DividersIn(BlocksItems(blocks))
      && (end.psuId != "" ==> end.psuId in end.psus)
    decreases |blocks|
  {
    hide RowStep;
    if blocks != [] {
      var n := |blocks| - 1;
      var b := blocks[n];
      var front := BlocksItems(blocks[..n]);
      DividersAppend(front, b.Items());
      DividersAppend([Row(b.key, b.status)], b.body);
      DividersOfRow(b.key, b.status);
      RunAppend(st, front, b.Items());
      RunBlocks(st, blocks[..n]);
      RecordsKeys(blocks[..n], b.Id());
      RunBlock(Run(st, front).value, b);
    }
  }

  lemma DividersOfRow(key: string, value: string)
    ensures DividersIn([Row(key, value)]) == 0
  {
    assert [Row(key, value)][..0] == [];
  }

  /**
   * Every `DC power`, `fan status` and `power (W)` row before the fourth divider lands on the nearest
   * preceding header; nothing after that divider touches a power supply.
   */
  lemma PsuRowsFollowTheirHeader(out: string, front: seq<Item>, blocks: seq<Block>, back: seq<Item>)
    requires FullScan(out).Ok?
    requires Items(Split(out, '\n')) == front + BlocksItems(blocks) + back
    requires forall i | 0 <= i < |front| :: !IsHeader(front[i])
    requires DistinctBlocks(blocks)
    requires DividersIn(front + BlocksItems(blocks)) < 4
    requires back == [] || (back[0].Divider? && DividersIn(front + BlocksItems(blocks)) == 3)
    ensures FullScan(out).value.psus == Records(blocks)
  {
    hide RowStep;
    var rows := BlocksItems(blocks);
    DividersAppend(front, rows);
    RunAppend(START, front + rows, back);
    RunAppend(START, front, rows);
    RunBody(START, front);
    RunBlocks(Run(START, front).value, blocks);
    if back != [] {
      RunChassis(Step(Run(START, front + rows).value, back[0]).value, back[1..]);
    }
  }

  lemma {:induction false} RecordsAt(blocks: seq<Block>, i: nat)
    requires DistinctBlocks(blocks) && i < |blocks|
    ensures blocks[i].Id() in Records(blocks) && Records(blocks)[blocks[i].Id()] == blocks[i].Record()
  {
    if i < |blocks| - 1 {
      RecordsAt(blocks[..|blocks| - 1], i);
    }
  }

  /** The table holds exactly one record per block, the one the block describes. */
  lemma RecordsAreTheBlocks(blocks: seq<Block>)
    requires DistinctBlocks(blocks)
    ensures forall id <- Records(blocks) :: exists i | 0 <= i < |blocks| :: blocks[i].Id() == id
    ensures forall i | 0 <= i < |blocks| ::
      blocks[i].Id() in Records(blocks) && Records(blocks)[blocks[i].Id()] == blocks[i].Record()
  {
    forall id | id in Records(blocks) ensures exists i | 0 <= i < |blocks| :: blocks[i].Id() == id {
      RecordsKeys(blocks, id);
    }
    forall i | 0 <= i < |blocks|
      ensures blocks[i].Id() in Records(blocks) && Records(blocks)[blocks[i].Id()] == blocks[i].Record()
    {
      RecordsAt(blocks, i);
    }
  }

  lemma StepIds(st: Scan, item: Item)
    requires Step(st, item).Ok?
    ensures
      var next := Step(st, item).value;
      && (next.psuId == st.psuId || (|next.psuId| == 1 && IsDigit(next.psuId[0])))
      && (next.psus == st.psus || (next.psuId != "" && next.psus.Keys == st.psus.Keys + {next.psuId}))
  {
    hide ParseFloat, ParseUptime, FindPsu, FindFan, RowStep;
    if item.Row? {
      var a, skipped := RowStepParts(st, item.key, item.value);
      if IsHeader(item) {
        FindPsuIsADigit(item.key);
      }
      hide RowStep, FindPsu;
    }
  }

  /** Only single-digit ids ever get a record, in any text. */
  lemma {:induction false} IdsAreSingleDigits(items: seq<Item>)
    requires Run(START, items).Ok?
    ensures
      var st := Run(START, items).value;
      && (st.psuId == "" || (|st.psuId| == 1 && IsDigit(st.psuId[0])))
      && forall id <- st.psus :: |id| == 1 && IsDigit(id[0])
  {
    if items != [] {
      var n := |items| - 1;
      RunSnoc(START, items);
      IdsAreSingleDigits(items[..n]);
      StepIds(Run(START, items[..n]).value, items[n]);
    }
  }
}
