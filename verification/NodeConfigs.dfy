/** Encoding a node configuration to JSON and decoding it again. */
module NodeConfigs {
  import opened Outcomes
  import opened Rounding
  import opened JsonValue

  // ----- Data ---------------------------------------------------------------------------------

  type Uint8 = x: nat | x < 256

  datatype Channel = Channel(txFreq: real, rxFreq: real, txGain: real, rxGain: real, txAnt: string, rxAnt: string)

  datatype SampleRate = SampleRate(tx: real, rx: real)

  datatype Location = Location(lat: real, lon: real, alt: real)

  /** The fields that go over the wire; a value with its has-flag is an option. */
  datatype Config = Config(
    id: string,
    name: string,
    numChannels: Uint8,
    sampleRate: SampleRate,
    channels: seq<Channel>,
    logicalNode: int,
    location: Option<Location>,
    vehicle: string,
    aerpaw: string,
    nodeType: int,
    txGain: Option<real>,
    rxGain: Option<real>,
    inputFormat: string,
    outputFormat: string)

  const DEFAULT_CHANNEL := Channel(0.0, 0.0, 0.0, 0.0, "", "")

  const DEFAULT_CONFIG := Config("", "", 1, SampleRate(0.0, 0.0), [], -1, None, "", "", 0, None, None, "", "")

  /** `std::stoi`, `std::stod` and `std::stof`, none where they throw. */
  datatype Numerals = Numerals(stoi: string -> Option<int>, stod: string -> Option<real>, stof: string -> Option<real>)

  // ----- Encoding -----------------------------------------------------------------------------

  function EncodeSide(freq: real, gain: real, ant: string): Json {
    Obj(map["tune_freq" := Num(freq), "gain" := Num(gain), "antenna" := Str(ant)])
  }

  /** A side that is not tuned is left out; with neither side the value stays null. */
  function EncodeChannel(c: Channel): Json {
    var tx := if c.txFreq != 0.0 then map["tx" := EncodeSide(c.txFreq, c.txGain, c.txAnt)] else map[];
    var rx := if c.rxFreq != 0.0 then map["rx" := EncodeSide(c.rxFreq, c.rxGain, c.rxAnt)] else map[];
    if tx + rx == map[] then Null else Obj(tx + rx)
  }

  function EncodeChannels(cs: seq<Channel>): seq<Json> {
    seq(|cs|, i requires 0 <= i < |cs| => EncodeChannel(cs[i]))
  }

  /** A member that `to_json` adds to the object if its condition holds. */
  datatype Field = Field(name: string, present: bool, value: Json)

  function Collect(fields: seq<Field>): map<string, Json> {
    if fields == [] then
      map[]
    else
      var f, rest := fields[|fields| - 1], Collect(fields[..|fields| - 1]);
      if f.present then rest[f.name := f.value] else rest
  }

  function EncodeGains(tx: Option<real>, rx: Option<real>): map<string, Json> {
    var g := if tx.Some? then map["tx" := Num(tx.value)] else map[];
    if rx.Some? then g["rx" := Num(rx.value)] else g
  }

  function EncodeLocation(l: Option<Location>): Json {
    if l.None? then Null
    else Obj(map["lat" := Num(l.value.lat), "lon" := Num(l.value.lon), "alt" := Num(l.value.alt)])
  }

  function FieldsOf(c: Config): seq<Field> {
    [Field("id", true, Str(c.id)),
     Field("name", true, Str(c.name)),
     Field("numChannels", true, Num(c.numChannels as real)),
     Field("sample_rate", true, Obj(map["tx" := Num(c.sampleRate.tx), "rx" := Num(c.sampleRate.rx)])),
     Field("channels", c.channels != [], Arr(EncodeChannels(c.channels))),
     Field("logical_node", c.logicalNode >= 0, Num(c.logicalNode as real)),
     Field("location", c.location.Some?, EncodeLocation(c.location)),
     Field("vehicle", c.vehicle != "", Obj(map["address" := Str(c.vehicle)])),
     Field("AERPAW", c.aerpaw != "", Str(c.aerpaw)),
     Field("node_type", c.nodeType != 0, Num(c.nodeType as real)),
     Field("gains", c.txGain.Some? || c.rxGain.Some?, Obj(EncodeGains(c.txGain, c.rxGain))),
     Field("inputFormat", c.inputFormat != "", Str(c.inputFormat)),
     Field("outputFormat", c.outputFormat != "", Str(c.outputFormat))]
  }

  /** `to_json(json&, const NodeConfig&)`. */
  function Encode(c: Config): Json {
    Obj(Collect(FieldsOf(c)))
  }

  // ----- Decoding -----------------------------------------------------------------------------

  /** Number of a member, none if it is missing or not a number. */
  function NumberAt(m: map<string, Json>, k: string): Option<real> {
    if k in m && m[k].Num? then Some(m[k].n) else None
  }

  function StringAt(m: map<string, Json>, k: string): Option<string> {
    if k in m && m[k].Str? then Some(m[k].s) else None
  }

  function Or<T>(value: Option<T>, fallback: Option<T>): Option<T> {
    if value.Some? then value else fallback
  }

  /** One side of a channel: the fields are set in order until one of them throws. */
  function DecodeSide(j: Json, freq: real, gain: real, ant: string): (real, real, string) {
    var m := MembersOf(j);
    var f := NumberAt(m, "tune_freq");
    if f.None? then
      (freq, gain, ant)
    else
      var g := NumberAt(m, "gain");
      if g.None? then
        (f.value, gain, ant)
      else
        var a := StringAt(m, "antenna");
        (f.value, g.value, if a.Some? then a.value else ant)
  }

  function DecodeChannel(j: Json): Channel {
    var m, d := MembersOf(j), DEFAULT_CHANNEL;
    var tx := if "tx" in m then DecodeSide(m["tx"], d.txFreq, d.txGain, d.txAnt) else (d.txFreq, d.txGain, d.txAnt);
    var rx := if "rx" in m then DecodeSide(m["rx"], d.rxFreq, d.rxGain, d.rxAnt) else (d.rxFreq, d.rxGain, d.rxAnt);
    Channel(tx.0, rx.0, tx.1, rx.1, tx.2, rx.2)
  }

  function DecodeChannels(js: seq<Json>): seq<Channel> {
    seq(|js|, i requires 0 <= i < |js| => DecodeChannel(js[i]))
  }

  function RateOr(m: map<string, Json>, k: string): real {
    var r := NumberAt(m, k);
    if r.Some? then r.value else 1000000.0
  }

  /** `id` that is present but no string throws before `name` is looked at. */
  function DecodeNames(c: Config, m: map<string, Json>): Config {
    if "id" in m && !m["id"].Str? then
      c
    else
      var c1 := if "id" in m then c.(id := m["id"].s) else c;
      if "name" in m && m["name"].Str? then c1.(name := m["name"].s) else c1
  }

  function DecodeNumChannels(c: Config, m: map<string, Json>): Config {
    var n := NumberAt(m, "numChannels");
    if n.Some? then c.(numChannels := Trunc(n.value) % 256) else c
  }

  /** Without a list of channels, that many default ones. */
  function DecodeChannelList(c: Config, m: map<string, Json>): Config {
    if "channels" in m then
      if m["channels"].Arr? then c.(channels := DecodeChannels(m["channels"].elems)) else c
    else if c.numChannels > 0 then
      c.(channels := seq(c.numChannels, _ => DEFAULT_CHANNEL))
    else
      c
  }

  function DecodeSampleRate(c: Config, m: map<string, Json>): Config {
    if "sample_rate" in m then
      var s := MembersOf(m["sample_rate"]);
      c.(sampleRate := SampleRate(RateOr(s, "tx"), RateOr(s, "rx")))
    else
      c
  }

  function DecodeLogicalNode(c: Config, m: map<string, Json>, num: Numerals): Config {
    if "logical_node" !in m then
      c
    else
      match m["logical_node"]
      case Num(n) => c.(logicalNode := Trunc(n))
      case Str(s) => var i := num.stoi(s); if i.Some? then c.(logicalNode := i.value) else c
      case _ => c
  }

  /** A coordinate: 0 if missing, none if its conversion throws. */
  function Coordinate(m: map<string, Json>, k: string, parse: string -> Option<real>): Option<real> {
    if k !in m then
      Some(0.0)
    else
      match m[k]
      case Num(n) => Some(n)
      case Str(s) => parse(s)
      case _ => None
  }

  function DecodeLocation(c: Config, m: map<string, Json>, num: Numerals): Config {
    if "location" in m && m["location"].Obj? then
      var l := m["location"].members;
      var lat, lon := Coordinate(l, "lat", num.stod), Coordinate(l, "lon", num.stod);
      var alt := Coordinate(l, "alt", num.stof);
      if lat.Some? && lon.Some? && alt.Some? then
        c.(location := Some(Location(lat.value, lon.value, alt.value)))
      else
        c
    else
      c
  }

  function DecodeVehicle(c: Config, m: map<string, Json>): Config {
    if "vehicle" in m && m["vehicle"].Obj? then
      var a := StringAt(m["vehicle"].members, "address");
      if a.Some? then c.(vehicle := a.value) else c
    else
      c
  }

  function AerpawKey(c: Config, j: Json): Config {
    match j
    case Str(s) => c.(aerpaw := s)
    case Obj(m) => var n := StringAt(m, "node"); if n.Some? then c.(aerpaw := n.value) else c
    case _ => c
  }

  function DecodeAerpaw(c: Config, m: map<string, Json>): Config {
    if "AERPAW" in m then AerpawKey(c, m["AERPAW"])
    else if "aerpaw" in m then AerpawKey(c, m["aerpaw"])
    else c
  }

  predicate Audible(gain: real) {
    gain > 0.000000000001 || -gain > 0.000000000001
  }

  /** A gain that is not given is taken from the first channel, unless that is practically zero. */
  function GainOr(gain: Option<real>, channels: seq<Channel>, first: real): Option<real> {
    if gain.None? && channels != [] && Audible(first) then Some(first) else gain
  }

  function FirstTx(channels: seq<Channel>): real {
    if channels == [] then 0.0 else channels[0].txGain
  }

  function FirstRx(channels: seq<Channel>): real {
    if channels == [] then 0.0 else channels[0].rxGain
  }

  function GivenGains(c: Config, m: map<string, Json>): Config {
    var g := if "gains" in m then MembersOf(m["gains"]) else map[];
    c.(txGain := Or(NumberAt(g, "tx"), c.txGain), rxGain := Or(NumberAt(g, "rx"), c.rxGain))
  }

  function FallBackGains(c: Config): Config {
    c.(txGain := GainOr(c.txGain, c.channels, FirstTx(c.channels)),
       rxGain := GainOr(c.rxGain, c.channels, FirstRx(c.channels)))
  }

  function DecodeGains(c: Config, m: map<string, Json>): Config {
    FallBackGains(GivenGains(c, m))
  }

  function DecodeNodeType(c: Config, m: map<string, Json>): Config {
    var n := NumberAt(m, "node_type");
    if n.Some? && n.value == n.value.Floor as real then c.(nodeType := n.value.Floor) else c
  }

  function DecodeFormats(c: Config, m: map<string, Json>): Config {
    var i, o := StringAt(m, "inputFormat"), StringAt(m, "outputFormat");
    c.(inputFormat := if i.Some? then i.value else c.inputFormat,
       outputFormat := if o.Some? then o.value else c.outputFormat)
  }

  /** `from_json(const json&, NodeConfig&)`: one block after the other, each of which keeps what it has set
      when something in it throws. */
  function Decode(c: Config, j: Json, num: Numerals): Config {
    var m := MembersOf(j);
    var c1 := DecodeNumChannels(DecodeNames(c, m), m);
    var c2 := DecodeSampleRate(DecodeChannelList(c1, m), m);
    var c3 := DecodeLocation(DecodeLogicalNode(c2, m, num), m, num);
    var c4 := DecodeAerpaw(DecodeVehicle(c3, m), m);
    DecodeFormats(DecodeNodeType(DecodeGains(c4, m), m), m)
  }

  // ----- The configuration object -------------------------------------------------------------

  class NodeConfig {
    var id: string
    var name: string
    var numChannels: Uint8
    var sampleRate: SampleRate
    var channels: seq<Channel>
    var logicalNode: int
    var location: Location
    var hasLocation: bool
    var vehicleAddress: string
    var aerpawKey: string
    var nodeType: int
    var deviceTxGain: real
    var deviceRxGain: real
    var hasDeviceTxGain: bool
    var hasDeviceRxGain: bool
    var inputFormat: string
    var outputFormat: string

    /** The fields as a value: what a has-flag switches off is not there. */
    function Fields(): Config
      reads this
    {
      Config(id, name, numChannels, sampleRate, channels, logicalNode, if hasLocation then Some(location) else None,
             vehicleAddress, aerpawKey, nodeType, if hasDeviceTxGain then Some(deviceTxGain) else None,
             if hasDeviceRxGain then Some(deviceRxGain) else None, inputFormat, outputFormat)
    }

    constructor ()
      ensures Fields() == DEFAULT_CONFIG
      ensures numChannels == 1 && logicalNode == -1 && nodeType == 0 && sampleRate == SampleRate(0.0, 0.0)
      ensures channels == [] && !hasLocation && !hasDeviceTxGain && !hasDeviceRxGain
      ensures [id, name, vehicleAddress, aerpawKey, inputFormat, outputFormat] == ["", "", "", "", "", ""]
    {
      id, name, numChannels, sampleRate, channels := "", "", 1, SampleRate(0.0, 0.0), [];
      logicalNode, location, hasLocation, vehicleAddress, aerpawKey := -1, Location(0.0, 0.0, 0.0), false, "", "";
      nodeType, deviceTxGain, deviceRxGain, hasDeviceTxGain, hasDeviceRxGain := 0, 0.0, 0.0, false, false;
      inputFormat, outputFormat := "", "";
    }

    /** `from_json(const json&, NodeConfig&)`. Whatever the object held before, decoding an encoded
        configuration overwrites exactly what the encoding carries. */
    method FromJson(j: Json, num: Numerals)
      modifies this
      ensures Fields() == Decode(old(Fields()), j, num)
      ensures forall c :: j == Encode(c) ==> Fields() == Onto(old(Fields()), c)
    {
      var m := MembersOf(j);
      ghost var before := Fields();
      ReadNames(m);
      ReadChannels(m);
      ReadSampleRate(m);
      ReadPlace(m, num);
      ReadKeys(m);
      ReadGains(m);
      BorrowGains();
      ReadRest(m);
      assert Fields() == Decode(before, j, num);
      AllDecodeOnto(before, num);
    }

    method ReadSampleRate(m: map<string, Json>)
      modifies this
      ensures Fields() == DecodeSampleRate(old(Fields()), m)
    {
      if "sample_rate" in m {
        var s := MembersOf(m["sample_rate"]);
        sampleRate := SampleRate(RateOr(s, "tx"), RateOr(s, "rx"));
      }
    }

    method ReadNames(m: map<string, Json>)
      modifies this
      ensures Fields() == DecodeNames(old(Fields()), m)
    {
      if "id" in m {
        if !m["id"].Str? {
          return;
        }
        id := m["id"].s;
      }
      if "name" in m {
        if !m["name"].Str? {
          return;
        }
        name := m["name"].s;
      }
    }

    method ReadChannels(m: map<string, Json>)
      modifies this
      ensures Fields() == DecodeChannelList(DecodeNumChannels(old(Fields()), m), m)
    {
      if "numChannels" in m && m["numChannels"].Num? {
        numChannels := Trunc(m["numChannels"].n) % 256;
      }
      if "channels" in m {
        if m["channels"].Arr? {
          channels := DecodeChannels(m["channels"].elems);
        }
      } else if numChannels > 0 {
        channels := seq(numChannels, _ => DEFAULT_CHANNEL);
      }
    }

    method ReadPlace(m: map<string, Json>, num: Numerals)
      modifies this
      ensures Fields() == DecodeLocation(DecodeLogicalNode(old(Fields()), m, num), m, num)
    {
      if "logical_node" in m {
        if m["logical_node"].Num? {
          logicalNode := Trunc(m["logical_node"].n);
        } else if m["logical_node"].Str? {
          var i := num.stoi(m["logical_node"].s);
          if i.Some? {
            logicalNode := i.value;
          }
        }
      }
      if "location" in m && m["location"].Obj? {
        var l := m["location"].members;
        var lat := Coordinate(l, "lat", num.stod);
        if lat.None? {
          return;
        }
        var lon := Coordinate(l, "lon", num.stod);
        if lon.None? {
          return;
        }
        var alt := Coordinate(l, "alt", num.stof);
        if alt.None? {
          return;
        }
        location, hasLocation := Location(lat.value, lon.value, alt.value), true;
      }
    }

    method ReadKeys(m: map<string, Json>)
      modifies this
      ensures Fields() == DecodeAerpaw(DecodeVehicle(old(Fields()), m), m)
    {
      if "vehicle" in m && m["vehicle"].Obj? {
        var a := StringAt(m["vehicle"].members, "address");
        if a.Some? {
          vehicleAddress := a.value;
        }
      }
      if "AERPAW" in m {
        ReadAerpaw(m["AERPAW"]);
      } else if "aerpaw" in m {
        ReadAerpaw(m["aerpaw"]);
      }
    }

    method ReadAerpaw(j: Json)
      modifies this
      ensures Fields() == AerpawKey(old(Fields()), j)
    {
      if j.Str? {
        aerpawKey := j.s;
      } else if j.Obj? {
        var n := StringAt(j.members, "node");
        if n.Some? {
          aerpawKey := n.value;
        }
      }
    }

    method ReadGains(m: map<string, Json>)
      modifies this
      ensures Fields() == GivenGains(old(Fields()), m)
    {
      if "gains" in m && m["gains"].Obj? {
        var g := m["gains"].members;
        if "tx" in g && g["tx"].Num? {
          deviceTxGain, hasDeviceTxGain := g["tx"].n, true;
        }
        if "rx" in g && g["rx"].Num? {
          deviceRxGain, hasDeviceRxGain := g["rx"].n, true;
        }
      }
    }

    method BorrowGains()
      modifies this
      ensures Fields() == FallBackGains(old(Fields()))
    {
      if channels != [] {
        if !hasDeviceTxGain && Audible(channels[0].txGain) {
          deviceTxGain, hasDeviceTxGain := channels[0].txGain, true;
        }
        if !hasDeviceRxGain && Audible(channels[0].rxGain) {
          deviceRxGain, hasDeviceRxGain := channels[0].rxGain, true;
        }
      }
    }

    method ReadRest(m: map<string, Json>)
      modifies this
      ensures Fields() == DecodeFormats(DecodeNodeType(old(Fields()), m), m)
    {
      var n := NumberAt(m, "node_type");
      if n.Some? && n.value == n.value.Floor as real {
        nodeType := n.value.Floor;
      }
      if "inputFormat" in m && m["inputFormat"].Str? {
        inputFormat := m["inputFormat"].s;
      }
      if "outputFormat" in m && m["outputFormat"].Str? {
        outputFormat := m["outputFormat"].s;
      }
    }
  }

  // ----- The normal form ----------------------------------------------------------------------

  /** A channel with the sides that are not tuned reset to their defaults. */
  function NormalChannel(c: Channel): Channel {
    Channel(c.txFreq, c.rxFreq,
            if c.txFreq != 0.0 then c.txGain else 0.0, if c.rxFreq != 0.0 then c.rxGain else 0.0,
            if c.txFreq != 0.0 then c.txAnt else "", if c.rxFreq != 0.0 then c.rxAnt else "")
  }

  function NormalChannels(c: Config): seq<Channel> {
    if c.channels == [] then
      seq(c.numChannels, _ => DEFAULT_CHANNEL)
    else
      seq(|c.channels|, i requires 0 <= i < |c.channels| => NormalChannel(c.channels[i]))
  }

  function Normal(c: Config): Config {
    var channels := NormalChannels(c);
    c.(channels := channels,
       logicalNode := if c.logicalNode >= 0 then c.logicalNode else -1,
       txGain := GainOr(c.txGain, channels, FirstTx(channels)),
       rxGain := GainOr(c.rxGain, channels, FirstRx(channels)))
  }

  /** The channels that decoding `c` onto an object with the channels `stale` gives. */
  function OntoChannels(stale: seq<Channel>, c: Config): seq<Channel> {
    if c.channels == [] && c.numChannels == 0 then stale else NormalChannels(c)
  }

  /** What decoding the encoding of `c` makes of an object that held `stale`: the optional parts that `c` does
      not have stay as they were, and gains fall back on the new channels last of all. */
  function Onto(stale: Config, c: Config): Config {
    var channels := OntoChannels(stale.channels, c);
    Config(c.id, c.name, c.numChannels, c.sampleRate, channels,
           if c.logicalNode >= 0 then c.logicalNode else stale.logicalNode,
           Or(c.location, stale.location),
           if c.vehicle != "" then c.vehicle else stale.vehicle,
           if c.aerpaw != "" then c.aerpaw else stale.aerpaw,
           if c.nodeType != 0 then c.nodeType else stale.nodeType,
           GainOr(Or(c.txGain, stale.txGain), channels, FirstTx(channels)),
           GainOr(Or(c.rxGain, stale.rxGain), channels, FirstRx(channels)),
           if c.inputFormat != "" then c.inputFormat else stale.inputFormat,
           if c.outputFormat != "" then c.outputFormat else stale.outputFormat)
  }

  lemma ChannelNormalised(c: Channel)
    ensures DecodeChannel(EncodeChannel(c)) == NormalChannel(c)
  {
    var tx := if c.txFreq != 0.0 then map["tx" := EncodeSide(c.txFreq, c.txGain, c.txAnt)] else map[];
    var rx := if c.rxFreq != 0.0 then map["rx" := EncodeSide(c.rxFreq, c.rxGain, c.rxAnt)] else map[];
    var m := MembersOf(EncodeChannel(c));
    assert m == tx + rx;
    assert "tx" in m <==> c.txFreq != 0.0;
    assert "rx" in m <==> c.rxFreq != 0.0;
  }

  lemma ChannelsNormalised(cs: seq<Channel>)
    ensures DecodeChannels(EncodeChannels(cs)) == seq(|cs|, i requires 0 <= i < |cs| => NormalChannel(cs[i]))
  {
    forall i | 0 <= i < |cs|
      ensures DecodeChannels(EncodeChannels(cs))[i] == NormalChannel(cs[i])
    {
      ChannelNormalised(cs[i]);
    }
  }

  lemma {:induction false} CollectOnly(fields: seq<Field>, k: string)
    requires forall j :: 0 <= j < |fields| ==> fields[j].name != k
    ensures k !in Collect(fields)
    decreases |fields|
  {
    if fields != [] {
      CollectOnly(fields[..|fields| - 1], k);
    }
  }

  lemma {:induction false} CollectAt(fields: seq<Field>, i: nat)
    requires i < |fields| && forall j :: 0 <= j < |fields| && j != i ==> fields[j].name != fields[i].name
    ensures fields[i].name in Collect(fields) <==> fields[i].present
    ensures fields[i].present ==> Collect(fields)[fields[i].name] == fields[i].value
    decreases |fields|
  {
    var n := |fields| - 1;
    if i < n {
      CollectAt(fields[..n], i);
    } else {
      CollectOnly(fields[..n], fields[n].name);
    }
  }

  /** Member `k` of the encoded object is there under its condition and has its value. */
  ghost predicate Carries(m: map<string, Json>, k: string, present: bool, value: Json) {
    (k in m <==> present) && (present ==> m[k] == value)
  }

  lemma FieldCarried(c: Config, i: nat)
    requires i < 13
    ensures var f := FieldsOf(c)[i]; Carries(Encode(c).members, f.name, f.present, f.value)
  {
    FieldNames(c, i);
    CollectAt(FieldsOf(c), i);
  }

  /** The member names differ in their lengths or in their first characters. */
  ghost const LENGTHS: seq<nat> := [2, 4, 11, 11, 8, 12, 8, 7, 6, 9, 5, 11, 12]

  ghost const INITIALS: string := "innscllvAngio"

  lemma FieldLook(c: Config, i: nat)
    requires i < 13
    ensures var name := FieldsOf(c)[i].name; |name| == LENGTHS[i] && name[0] == INITIALS[i]
  {
  }

  lemma LooksDiffer(i: nat, j: nat)
    requires i < 13 && j < 13 && i != j
    ensures LENGTHS[i] != LENGTHS[j] || INITIALS[i] != INITIALS[j]
    ensures LENGTHS[i] != |"aerpaw"| || INITIALS[i] != 'a'
  {
  }

  lemma FieldNames(c: Config, i: nat)
    requires i < 13
    ensures forall j :: 0 <= j < 13 && j != i ==> FieldsOf(c)[j].name != FieldsOf(c)[i].name
    ensures FieldsOf(c)[i].name != "aerpaw"
  {
    FieldLook(c, i);
    LooksDiffer(i, (i + 1) % 13);
    assert "aerpaw"[0] == 'a';
    forall j | 0 <= j < 13 && j != i
      ensures FieldsOf(c)[j].name != FieldsOf(c)[i].name
    {
      FieldLook(c, j);
      LooksDiffer(i, j);
    }
  }

  /** The first blocks: names, number of channels, channels and sample rate. */
  lemma FirstBlocks(c: Config, stale: Config, m: map<string, Json>)
    requires m == Encode(c).members
    ensures DecodeSampleRate(DecodeChannelList(DecodeNumChannels(DecodeNames(stale, m), m), m), m)
         == stale.(id := c.id, name := c.name, numChannels := c.numChannels,
                   channels := OntoChannels(stale.channels, c), sampleRate := c.sampleRate)
  {
    FieldCarried(c, 0);
    FieldCarried(c, 1);
    FieldCarried(c, 2);
    FieldCarried(c, 3);
    FieldCarried(c, 4);
    ChannelsNormalised(c.channels);
    var c1 := DecodeNumChannels(DecodeNames(stale, m), m);
    assert Trunc(c.numChannels as real) == c.numChannels;
    assert c1 == stale.(id := c.id, name := c.name, numChannels := c.numChannels);
    assert DecodeChannelList(c1, m) == c1.(channels := OntoChannels(stale.channels, c));
  }

  lemma MiddleBlocks(c: Config, before: Config, m: map<string, Json>, num: Numerals)
    requires m == Encode(c).members
    ensures DecodeAerpaw(DecodeVehicle(DecodeLocation(DecodeLogicalNode(before, m, num), m, num), m), m)
         == before.(logicalNode := Onto(before, c).logicalNode, location := Or(c.location, before.location),
                    vehicle := Onto(before, c).vehicle, aerpaw := Onto(before, c).aerpaw)
  {
    FieldCarried(c, 5);
    FieldCarried(c, 6);
    FieldCarried(c, 7);
    FieldCarried(c, 8);
    NoLowerCaseKey(c);
    var c1 := DecodeLogicalNode(before, m, num);
    assert c1 == before.(logicalNode := Onto(before, c).logicalNode);
    var c2 := DecodeLocation(c1, m, num);
    assert c2 == c1.(location := Or(c.location, before.location));
    assert DecodeVehicle(c2, m) == c2.(vehicle := Onto(before, c).vehicle);
  }

  lemma NoLowerCaseKey(c: Config)
    ensures "aerpaw" !in Encode(c).members
  {
    forall i | 0 <= i < 13
      ensures FieldsOf(c)[i].name != "aerpaw"
    {
      FieldNames(c, i);
    }
    CollectOnly(FieldsOf(c), "aerpaw");
  }

  lemma LastBlocks(c: Config, before: Config, m: map<string, Json>)
    requires m == Encode(c).members
    ensures DecodeFormats(DecodeNodeType(DecodeGains(before, m), m), m)
         == before.(txGain := GainOr(Or(c.txGain, before.txGain), before.channels, FirstTx(before.channels)),
                    rxGain := GainOr(Or(c.rxGain, before.rxGain), before.channels, FirstRx(before.channels)),
                    nodeType := Onto(before, c).nodeType, inputFormat := Onto(before, c).inputFormat,
                    outputFormat := Onto(before, c).outputFormat)
  {
    FieldCarried(c, 9);
    FieldCarried(c, 10);
    FieldCarried(c, 11);
    FieldCarried(c, 12);
    GainsDecoded(c);
    var c1 := DecodeGains(before, m);
    assert c1 == before.(txGain := GainOr(Or(c.txGain, before.txGain), before.channels, FirstTx(before.channels)),
                         rxGain := GainOr(Or(c.rxGain, before.rxGain), before.channels, FirstRx(before.channels)));
    assert DecodeNodeType(c1, m) == c1.(nodeType := Onto(before, c).nodeType);
  }

  lemma GainsDecoded(c: Config)
    ensures NumberAt(EncodeGains(c.txGain, c.rxGain), "tx") == c.txGain
    ensures NumberAt(EncodeGains(c.txGain, c.rxGain), "rx") == c.rxGain
  {
    assert "tx"[0] != "rx"[0];
  }

  /** Decoding an encoded configuration onto any object overwrites exactly what the encoding carries. */
  lemma DecodeOnto(stale: Config, c: Config, num: Numerals)
    ensures Decode(stale, Encode(c), num) == Onto(stale, c)
  {
    var m := Encode(c).members;
    FirstBlocks(c, stale, m);
    var first := stale.(id := c.id, name := c.name, numChannels := c.numChannels,
                        channels := OntoChannels(stale.channels, c), sampleRate := c.sampleRate);
    MiddleBlocks(c, first, m, num);
    var middle := first.(logicalNode := Onto(first, c).logicalNode, location := Or(c.location, first.location),
                         vehicle := Onto(first, c).vehicle, aerpaw := Onto(first, c).aerpaw);
    LastBlocks(c, middle, m);
  }

  lemma AllDecodeOnto(stale: Config, num: Numerals)
    ensures forall c :: Decode(stale, Encode(c), num) == Onto(stale, c)
  {
    forall c
      ensures Decode(stale, Encode(c), num) == Onto(stale, c)
    {
      DecodeOnto(stale, c, num);
    }
  }

  /** Decoding an encoded configuration into a fresh object gives its normal form. */
  lemma DecodeEncode(c: Config, num: Numerals)
    ensures Decode(DEFAULT_CONFIG, Encode(c), num) == Normal(c)
  {
    DecodeOnto(DEFAULT_CONFIG, c, num);
    assert c.channels == [] && c.numChannels == 0 ==> NormalChannels(c) == [];
  }

  // ----- Main results -------------------------------------------------------------------------

  predicate StableChannel(c: Channel) {
    (c.txFreq == 0.0 ==> c.txGain == 0.0 && c.txAnt == "") && (c.rxFreq == 0.0 ==> c.rxGain == 0.0 && c.rxAnt == "")
  }

  /** What a configuration must satisfy to survive the round trip unchanged. */
  predicate Stable(c: Config) {
    (c.channels == [] ==> c.numChannels == 0)
    && (forall i :: 0 <= i < |c.channels| ==> StableChannel(c.channels[i]))
    && c.logicalNode >= -1
    && (c.txGain.Some? || !Audible(FirstTx(c.channels)))
    && (c.rxGain.Some? || !Audible(FirstRx(c.channels)))
  }

  /** The round trip is the identity exactly on the stable configurations. */
  lemma RoundTripIff(c: Config, num: Numerals)
    ensures Decode(DEFAULT_CONFIG, Encode(c), num) == c <==> Stable(c)
  {
    DecodeEncode(c, num);
    NormalIff(c);
  }

  lemma NormalIff(c: Config)
    ensures Normal(c) == c <==> Stable(c)
  {
    if Stable(c) {
      assert NormalChannels(c) == c.channels;
    }
    if Normal(c) == c {
      assert forall i :: 0 <= i < |c.channels| ==> NormalChannel(c.channels[i]) == c.channels[i];
    }
  }

  /** A second round trip changes nothing more. */
  lemma RoundTripIdempotent(c: Config, num: Numerals)
    ensures var once := Decode(DEFAULT_CONFIG, Encode(c), num);
            Decode(DEFAULT_CONFIG, Encode(once), num) == once
  {
    DecodeEncode(c, num);
    NormalStable(c);
    RoundTripIff(Normal(c), num);
  }

  lemma NormalStable(c: Config)
    ensures Stable(Normal(c))
  {
    var channels := NormalChannels(c);
    forall i | 0 <= i < |channels|
      ensures StableChannel(channels[i])
    {
      if c.channels == [] {
        assert channels[i] == DEFAULT_CHANNEL;
      } else {
        assert channels[i] == NormalChannel(c.channels[i]);
      }
    }
  }

  /** The encoding carries everything that goes over the wire. */
  predicate Complete(c: Config) {
    (c.channels != [] || c.numChannels > 0) && c.logicalNode >= 0 && c.location.Some?
    && c.vehicle != "" && c.aerpaw != "" && c.nodeType != 0 && c.txGain.Some? && c.rxGain.Some?
    && c.inputFormat != "" && c.outputFormat != ""
  }

  const USED: Config :=
    Config("", "", 1, SampleRate(0.0, 0.0), [DEFAULT_CHANNEL], 0, Some(Location(0.0, 0.0, 0.0)), "v", "a", 1,
           Some(0.0), Some(0.0), "i", "o")

  lemma OntoIff(c: Config)
    ensures (forall stale :: Onto(stale, c) == Normal(c)) <==> Complete(c)
  {
    if forall stale :: Onto(stale, c) == Normal(c) {
      assert Onto(USED, c) == Normal(c);
    }
  }

  /** Decoding forgets what the object held before, whatever that was, exactly when the encoding carries
      everything: an object that is used again keeps stale values in place of absent ones. */
  lemma DecodeForgetsIff(c: Config, num: Numerals)
    ensures (forall stale :: Decode(stale, Encode(c), num) == Normal(c)) <==> Complete(c)
  {
    forall stale
      ensures Decode(stale, Encode(c), num) == Onto(stale, c)
    {
      DecodeOnto(stale, c, num);
    }
    OntoIff(c);
    if forall stale :: Decode(stale, Encode(c), num) == Normal(c) {
      forall stale
        ensures Onto(stale, c) == Normal(c)
      {
        assert Decode(stale, Encode(c), num) == Normal(c);
      }
    }
  }

  /** An object that shows it: decoding the encoding of a fresh configuration onto `USED` leaves its location,
      address, key, node type, gains and formats behind. */
  lemma StaleValuesStay(num: Numerals)
    ensures Decode(USED, Encode(DEFAULT_CONFIG), num) == USED
  {
    DecodeOnto(USED, DEFAULT_CONFIG, num);
    assert NormalChannels(DEFAULT_CONFIG) == [DEFAULT_CHANNEL];
  }
}
