/** The state of a switch, and the two texts the tool prints for it. */
module Hardware {
  import opened Wrappers
  import opened Text
  import opened Numbers
  import opened Ibswinfo

  /** Readings are kept as the text the tool prints; a missing row is `None`. */
  datatype Psu = Psu(id: string, status: string, dcPower: Option<string>, fanStatus: Option<string>,
                     power: Option<string>)

  datatype FanReading = FanReading(id: string, rpm: string)

  datatype Switch = Switch(
    partNumber: Option<string>, serialNumber: Option<string>, psid: Option<string>, firmwareVersion: Option<string>,
    uptime: Option<nat>, psus: seq<Psu>, temp: Option<string>, fanStatus: Option<string>, fans: seq<FanReading>)

  /** A value that survives as one column of one line. */
  predicate Clean(v: string) {
    Trimmed(v) && '|' !in v && '\n' !in v
  }

  predicate CleanOption(v: Option<string>) {
    v.Some? ==> Clean(v.value)
  }

  predicate ValidPsu(p: Psu) {
    && |p.id| == 1 && IsDigit(p.id[0])
    && Clean(p.status) && CleanOption(p.dcPower) && CleanOption(p.fanStatus) && CleanOption(p.power)
  }

  predicate ValidFan(f: FanReading) {
    f.id != "" && AllDigits(f.id) && Clean(f.rpm)
  }

  ghost predicate Valid(s: Switch) {
    && CleanOption(s.partNumber) && CleanOption(s.serialNumber) && CleanOption(s.psid) && CleanOption(s.firmwareVersion)
    && CleanOption(s.temp) && CleanOption(s.fanStatus)
    && (forall i | 0 <= i < |s.psus| :: ValidPsu(s.psus[i]))
    && (forall i, j | 0 <= i < j < |s.psus| :: s.psus[i].id != s.psus[j].id)
    && (forall i | 0 <= i < |s.fans| :: ValidFan(s.fans[i]))
  }

  /** A reading that is printed as a number. */
  predicate ReadableOption(v: Option<string>) {
    v.Some? ==> ParseFloat(v.value).Some?
  }

  /** A fan may also leave its speed empty. */
  predicate ReadableFan(f: FanReading) {
    f.rpm == "" || ParseFloat(f.rpm).Some?
  }

  /** Every reading is a number. */
  ghost predicate Readable(s: Switch) {
    && ReadableOption(s.temp)
    && (forall i | 0 <= i < |s.psus| :: ReadableOption(s.psus[i].power))
    && (forall i | 0 <= i < |s.fans| :: ReadableFan(s.fans[i]))
  }

  // ---------------------------------------------------------------- the full report

  function Dashes(): (s: string)
    ensures |s| == 49 && (forall i | 0 <= i < 49 :: s[i] == '-')
  {
    seq(49, _ => '-')
  }

  /** One row: the key indented and padded to its column, a bar, the value. */
  function Cell(indent: nat, key: string, value: string): string {
    var width := indent + |key|;
    Spaces(indent) + key + Spaces(if width < 19 then 19 - width else 1) + "| " + value
  }

  function OptCell(indent: nat, key: string, value: Option<string>): seq<string> {
    if value.Some? then [Cell(indent, key, value.value)] else []
  }

  /** `Nd-HH:MM:SS` */
  function UptimeText(n: nat): string {
    DurationText(n / 86400, n % 86400 / 3600, n % 3600 / 60, n % 60)
  }

  function DurationText(days: nat, h: nat, m: nat, s: nat): string
    requires h < 24 && m < 60 && s < 60
  {
    Dec(days) + "d" + ['-'] + ClockText(h, m, s)
  }

  function ClockText(h: nat, m: nat, s: nat): string
    requires h < 24 && m < 60 && s < 60
  {
    Dec2(h) + ":" + Dec2(m) + ":" + Dec2(s)
  }

  function StaticLines(s: Switch): seq<string> {
    OptCell(0, "part number", s.partNumber) + OptCell(0, "serial number", s.serialNumber)
    + OptCell(0, "PSID", s.psid) + OptCell(0, "firmware version", s.firmwareVersion)
  }

  function UptimeLines(s: Switch): seq<string> {
    OptCell(0, "uptime (d-h:m:s)", if s.uptime.Some? then Some(UptimeText(s.uptime.value)) else None)
  }

  function PsuLines(p: Psu): seq<string> {
    [Cell(0, "PSU" + p.id + " status", p.status)]
    + OptCell(5, "DC power", p.dcPower) + OptCell(5, "fan status", p.fanStatus) + OptCell(5, "power (W)", p.power)
  }

  function AllPsuLines(psus: seq<Psu>): seq<string> {
    if psus == [] then [] else AllPsuLines(psus[..|psus| - 1]) + PsuLines(psus[|psus| - 1])
  }

  function FanLines(fans: seq<FanReading>): seq<string> {
    if fans == [] then []
    else
      var f := fans[|fans| - 1];
      FanLines(fans[..|fans| - 1]) + [Cell(0, "fan#" + f.id + " (rpm)", f.rpm)]
  }

  function FullLines(s: Switch): seq<string> {
    HeadLines(s) + (AllPsuLines(s.psus) + ([Dashes()] + TailLines(s)))
  }

  /** Up to the power supplies. */
  function HeadLines(s: Switch): seq<string> {
    StaticLines(s) + [Dashes()] + UptimeLines(s) + [Dashes()]
  }

  /** After the power supplies. */
  function TailLines(s: Switch): seq<string> {
    OptCell(0, "temperature (C)", s.temp) + [Dashes()] + OptCell(0, "fan status", s.fanStatus) + FanLines(s.fans)
      + [Dashes()]
  }

  // ---------------------------------------------------------------- the vitals output

  function VitalsCell(key: string, value: string): string {
    key + Spaces(if |key| < 19 then 19 - |key| else 1) + ": " + value
  }

  function OptVitals(key: string, value: Option<string>): seq<string> {
    if value.Some? then [VitalsCell(key, value.value)] else []
  }

  /** The tool lists these power supplies; one without a reading gets an empty value. */
  function PowerLines(psus: seq<Psu>, listed: set<string>): seq<string> {
    if psus == [] then []
    else
      var p := psus[|psus| - 1];
      PowerLines(psus[..|psus| - 1], listed)
        + OptVitals("psu" + p.id + ".power (W)", if p.id in listed then Some(p.power.GetOr("")) else None)
  }

  function SpeedLines(fans: seq<FanReading>): seq<string> {
    if fans == [] then []
    else
      var f := fans[|fans| - 1];
      SpeedLines(fans[..|fans| - 1]) + [VitalsCell("fan#" + f.id + ".speed (rpm)", f.rpm)]
  }

  function VitalsLines(s: Switch, listed: set<string>): seq<string> {
    OptVitals("uptime (sec)", if s.uptime.Some? then Some(Dec(s.uptime.value)) else None)
    + (PowerLines(s.psus, listed) + (OptVitals("cur.temp (C)", s.temp) + SpeedLines(s.fans)))
  }

  // ---------------------------------------------------------------- what a report of the switch should say

  function Number(v: Option<string>): Option<real> {
    if v.Some? then ParseFloat(v.value) else None
  }

  function Record(p: Psu): PowerSupply {
    PowerSupply("", p.status, p.dcPower.GetOr(""), p.fanStatus.GetOr(""), Number(p.power))
  }

  function Table(psus: seq<Psu>): PsuTable {
    if psus == [] then map[]
    else
      var p := psus[|psus| - 1];
      Table(psus[..|psus| - 1])[p.id := Record(p)]
  }

  function FanList(fans: seq<FanReading>): seq<Fan> {
    seq(|fans|, i requires 0 <= i < |fans| => Fan(fans[i].id, ParseFloat(fans[i].rpm)))
  }

  function Expected(s: Switch): Report {
    Report(s.partNumber.GetOr(""), s.serialNumber.GetOr(""), s.psid.GetOr(""), s.firmwareVersion.GetOr(""),
      if s.uptime.Some? then s.uptime.value as real else 0.0,
      [], Number(s.temp), s.fanStatus.GetOr(""), FanList(s.fans))
  }

  lemma {:induction false} TableOf(psus: seq<Psu>, id: string)
    requires forall i, j | 0 <= i < j < |psus| :: psus[i].id != psus[j].id
    ensures id in Table(psus) <==> exists i | 0 <= i < |psus| :: psus[i].id == id
    ensures forall i | 0 <= i < |psus| && psus[i].id == id :: id in Table(psus) && Table(psus)[id] == Record(psus[i])
  {
    if psus != [] {
      TableOf(psus[..|psus| - 1], id);
    }
  }
}
