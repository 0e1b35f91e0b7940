/** What the node configuration's encoder writes and its decoder reads, field by field. */
module NodeDecoding {
  import opened Outcomes
  import opened Rounding
  import opened JsonValue
  import opened NodeConfigs

  // ----- The wire format ----------------------------------------------------------------------

  /** The members of an encoded configuration: those that are always there. */
  lemma EncodedAlways(c: Config)
    ensures var m := Encode(c).members;
            Carries(m, "id", true, Str(c.id)) && Carries(m, "name", true, Str(c.name))
            && Carries(m, "numChannels", true, Num(c.numChannels as real))
            && Carries(m, "sample_rate", true, Obj(map["tx" := Num(c.sampleRate.tx), "rx" := Num(c.sampleRate.rx)]))
  {
    FieldCarried(c, 0);
    FieldCarried(c, 1);
    FieldCarried(c, 2);
    FieldCarried(c, 3);
  }

  /** And those that depend on what is set. */
  lemma EncodedIfSet(c: Config)
    ensures var m := Encode(c).members;
            Carries(m, "channels", c.channels != [], Arr(EncodeChannels(c.channels)))
            && Carries(m, "logical_node", c.logicalNode >= 0, Num(c.logicalNode as real))
            && Carries(m, "location", c.location.Some?, EncodeLocation(c.location))
            && Carries(m, "vehicle", c.vehicle != "", Obj(map["address" := Str(c.vehicle)]))
            && Carries(m, "AERPAW", c.aerpaw != "", Str(c.aerpaw))
  {
    FieldCarried(c, 4);
    FieldCarried(c, 5);
    FieldCarried(c, 6);
    FieldCarried(c, 7);
    FieldCarried(c, 8);
  }

  lemma EncodedRest(c: Config)
    ensures var m := Encode(c).members;
            Carries(m, "node_type", c.nodeType != 0, Num(c.nodeType as real))
            && Carries(m, "gains", c.txGain.Some? || c.rxGain.Some?, Obj(EncodeGains(c.txGain, c.rxGain)))
            && Carries(m, "inputFormat", c.inputFormat != "", Str(c.inputFormat))
            && Carries(m, "outputFormat", c.outputFormat != "", Str(c.outputFormat))
  {
    FieldCarried(c, 9);
    FieldCarried(c, 10);
    FieldCarried(c, 11);
    FieldCarried(c, 12);
  }

  /** A side of a channel on the wire. */
  ghost predicate IsSide(j: Json, freq: real, gain: real, ant: string) {
    j.Obj? && |j.members| == 3
    && Carries(j.members, "tune_freq", true, Num(freq)) && Carries(j.members, "gain", true, Num(gain))
    && Carries(j.members, "antenna", true, Str(ant))
  }

  lemma SideWritten(freq: real, gain: real, ant: string)
    ensures IsSide(EncodeSide(freq, gain, ant), freq, gain, ant)
  {
    assert "tune_freq"[0] == 't' && "gain"[0] == 'g' && "antenna"[0] == 'a';
    assert EncodeSide(freq, gain, ant).members.Keys == {"tune_freq", "gain", "antenna"};
  }

  /** An encoded channel has its tuned sides and nothing else; without any it is null. */
  lemma ChannelWritten(c: Channel)
    ensures var m := MembersOf(EncodeChannel(c));
            ("tx" in m <==> c.txFreq != 0.0) && ("rx" in m <==> c.rxFreq != 0.0)
            && (forall k :: k in m ==> k == "tx" || k == "rx")
            && ("tx" in m ==> IsSide(m["tx"], c.txFreq, c.txGain, c.txAnt))
            && ("rx" in m ==> IsSide(m["rx"], c.rxFreq, c.rxGain, c.rxAnt))
    ensures c.txFreq == 0.0 && c.rxFreq == 0.0 ==> EncodeChannel(c) == Null
  {
    SideWritten(c.txFreq, c.txGain, c.txAnt);
    SideWritten(c.rxFreq, c.rxGain, c.rxAnt);
    assert "tx"[0] != "rx"[0];
  }

  lemma LocationAndGainsWritten(l: Location, tx: Option<real>, rx: Option<real>)
    ensures EncodeLocation(Some(l)) == Obj(map["lat" := Num(l.lat), "lon" := Num(l.lon), "alt" := Num(l.alt)])
    ensures var g := EncodeGains(tx, rx);
            ("tx" in g <==> tx.Some?) && (tx.Some? ==> g["tx"] == Num(tx.value))
            && ("rx" in g <==> rx.Some?) && (rx.Some? ==> g["rx"] == Num(rx.value))
            && forall k :: k in g ==> k == "tx" || k == "rx"
  {
    assert "tx"[0] != "rx"[0];
  }

  // ----- Borrowed gains -----------------------------------------------------------------------

  /** A decoded gain: the one that was set, else the first channel's if that side is tuned and its gain is more than
      1e-12 away from zero, else none. */
  ghost predicate GainComesBack(own: Option<real>, tuned: bool, first: real, decoded: Option<real>) {
    if own.Some? then decoded == own
    else if tuned && (first > 0.000000000001 || first < -0.000000000001) then decoded == Some(first)
    else decoded == None
  }

  /** Missing gains are taken from the first channel. */
  lemma GainsBorrowed(c: Config, num: Numerals)
    ensures var d := Decode(DEFAULT_CONFIG, Encode(c), num);
            if c.channels == [] then
              d.txGain == c.txGain && d.rxGain == c.rxGain
            else
              var first := c.channels[0];
              GainComesBack(c.txGain, first.txFreq != 0.0, first.txGain, d.txGain)
              && GainComesBack(c.rxGain, first.rxFreq != 0.0, first.rxGain, d.rxGain)
  {
    DecodeEncode(c, num);
  }

  // ----- Any JSON value -----------------------------------------------------------------------

  /** Each block sets its own fields and looks at no others, except that the list of channels depends on their
      number. */
  lemma FirstFields(c: Config, m: map<string, Json>)
    ensures var d := DecodeSampleRate(DecodeChannelList(DecodeNumChannels(DecodeNames(c, m), m), m), m);
            var n := DecodeNumChannels(c, m).numChannels;
            d == c.(id := DecodeNames(c, m).id, name := DecodeNames(c, m).name, numChannels := n,
                    channels := DecodeChannelList(c.(numChannels := n), m).channels,
                    sampleRate := DecodeSampleRate(c, m).sampleRate)
  {
    var c1 := DecodeNames(c, m);
    assert c1 == c.(id := c1.id, name := c1.name);
    var c2 := DecodeNumChannels(c1, m);
    assert c2 == c1.(numChannels := DecodeNumChannels(c, m).numChannels);
    var c3 := DecodeChannelList(c2, m);
    assert c3 == c2.(channels := DecodeChannelList(c.(numChannels := c2.numChannels), m).channels);
    assert DecodeSampleRate(c3, m) == c3.(sampleRate := DecodeSampleRate(c, m).sampleRate);
  }

  lemma MiddleFields(c: Config, m: map<string, Json>, num: Numerals)
    ensures DecodeAerpaw(DecodeVehicle(DecodeLocation(DecodeLogicalNode(c, m, num), m, num), m), m)
         == c.(logicalNode := DecodeLogicalNode(c, m, num).logicalNode, location := DecodeLocation(c, m, num).location,
               vehicle := DecodeVehicle(c, m).vehicle, aerpaw := DecodeAerpaw(c, m).aerpaw)
  {
    var c1 := DecodeLogicalNode(c, m, num);
    assert c1 == c.(logicalNode := c1.logicalNode);
    var c2 := DecodeLocation(c1, m, num);
    assert c2 == c1.(location := DecodeLocation(c, m, num).location);
    var c3 := DecodeVehicle(c2, m);
    assert c3 == c2.(vehicle := DecodeVehicle(c, m).vehicle);
    assert DecodeAerpaw(c3, m) == c3.(aerpaw := DecodeAerpaw(c, m).aerpaw);
  }

  lemma LastFields(c: Config, m: map<string, Json>)
    ensures DecodeFormats(DecodeNodeType(DecodeGains(c, m), m), m)
         == c.(txGain := DecodeGains(c, m).txGain, rxGain := DecodeGains(c, m).rxGain,
               nodeType := DecodeNodeType(c, m).nodeType, inputFormat := DecodeFormats(c, m).inputFormat,
               outputFormat := DecodeFormats(c, m).outputFormat)
  {
    var c1 := DecodeGains(c, m);
    assert c1 == c.(txGain := c1.txGain, rxGain := c1.rxGain);
    var c2 := DecodeNodeType(c1, m);
    assert c2 == c1.(nodeType := DecodeNodeType(c, m).nodeType);
    assert DecodeFormats(c2, m)
        == c2.(inputFormat := DecodeFormats(c, m).inputFormat, outputFormat := DecodeFormats(c, m).outputFormat);
  }

  /** The decoder is its blocks, each applied to the original object. */
  lemma BlocksIndependent(c: Config, j: Json, num: Numerals)
    ensures var m, d := MembersOf(j), Decode(c, j, num);
            var n := DecodeNumChannels(c, m).numChannels;
            var channels := DecodeChannelList(c.(numChannels := n), m).channels;
            d == Config(DecodeNames(c, m).id, DecodeNames(c, m).name, n, DecodeSampleRate(c, m).sampleRate, channels,
                        DecodeLogicalNode(c, m, num).logicalNode, DecodeLocation(c, m, num).location,
                        DecodeVehicle(c, m).vehicle, DecodeAerpaw(c, m).aerpaw, DecodeNodeType(c, m).nodeType,
                        DecodeGains(c.(channels := channels), m).txGain,
                        DecodeGains(c.(channels := channels), m).rxGain,
                        DecodeFormats(c, m).inputFormat, DecodeFormats(c, m).outputFormat)
  {
    var m := MembersOf(j);
    FirstFields(c, m);
    var first := DecodeSampleRate(DecodeChannelList(DecodeNumChannels(DecodeNames(c, m), m), m), m);
    MiddleFields(first, m, num);
    SameMiddle(c, first, m, num);
    var middle := DecodeAerpaw(DecodeVehicle(DecodeLocation(DecodeLogicalNode(first, m, num), m, num), m), m);
    LastFields(middle, m);
    SameLast(c, middle, m);
  }

  lemma SameMiddle(c: Config, d: Config, m: map<string, Json>, num: Numerals)
    requires d.logicalNode == c.logicalNode && d.location == c.location
    requires d.vehicle == c.vehicle && d.aerpaw == c.aerpaw
    ensures DecodeLogicalNode(d, m, num).logicalNode == DecodeLogicalNode(c, m, num).logicalNode
    ensures DecodeLocation(d, m, num).location == DecodeLocation(c, m, num).location
    ensures DecodeVehicle(d, m).vehicle == DecodeVehicle(c, m).vehicle
    ensures DecodeAerpaw(d, m).aerpaw == DecodeAerpaw(c, m).aerpaw
  {
  }

  lemma SameLast(c: Config, d: Config, m: map<string, Json>)
    requires d.txGain == c.txGain && d.rxGain == c.rxGain && d.nodeType == c.nodeType
    requires d.inputFormat == c.inputFormat && d.outputFormat == c.outputFormat
    ensures DecodeGains(d, m).txGain == DecodeGains(c.(channels := d.channels), m).txGain
    ensures DecodeGains(d, m).rxGain == DecodeGains(c.(channels := d.channels), m).rxGain
    ensures DecodeNodeType(d, m).nodeType == DecodeNodeType(c, m).nodeType
    ensures DecodeFormats(d, m).inputFormat == DecodeFormats(c, m).inputFormat
    ensures DecodeFormats(d, m).outputFormat == DecodeFormats(c, m).outputFormat
  {
  }

  /** A string member that is there and is a string, else the old value. */
  function TextOr(m: map<string, Json>, k: string, was: string): string {
    if k in m && m[k].Str? then m[k].s else was
  }

  lemma DecodedText(c: Config, j: Json, num: Numerals)
    ensures var m, d := MembersOf(j), Decode(c, j, num);
            d.id == TextOr(m, "id", c.id)
            && d.name == (if "id" in m && !m["id"].Str? then c.name else TextOr(m, "name", c.name))
            && d.inputFormat == TextOr(m, "inputFormat", c.inputFormat)
            && d.outputFormat == TextOr(m, "outputFormat", c.outputFormat)
            && d.vehicle == (if "vehicle" in m then TextOr(MembersOf(m["vehicle"]), "address", c.vehicle)
                             else c.vehicle)
  {
    BlocksIndependent(c, j, num);
  }

  lemma KeyRead(c: Config, m: map<string, Json>, j: Json)
    ensures AerpawKey(c, j).aerpaw == if j.Str? then j.s else TextOr(MembersOf(j), "node", c.aerpaw)
    ensures DecodeAerpaw(c, m).aerpaw
         == if "AERPAW" in m then AerpawKey(c, m["AERPAW"]).aerpaw
            else if "aerpaw" in m then AerpawKey(c, m["aerpaw"]).aerpaw else c.aerpaw
  {
  }

  /** The key as a string or as an object with a node, under the upper-case name if that is there at all. */
  lemma DecodedKey(c: Config, j: Json, num: Numerals)
    ensures var m, d := MembersOf(j), Decode(c, j, num);
            var name := if "AERPAW" in m then "AERPAW" else "aerpaw";
            d.aerpaw == if name !in m then c.aerpaw
                        else if m[name].Str? then m[name].s
                        else TextOr(MembersOf(m[name]), "node", c.aerpaw)
  {
    BlocksIndependent(c, j, num);
    var m := MembersOf(j);
    var name := if "AERPAW" in m then "AERPAW" else "aerpaw";
    KeyRead(c, m, if name in m then m[name] else Null);
  }

  /** A number of channels is cut to its whole part and to eight bits; an absent list of channels is replaced by that
      many untuned ones, and a list that is no array is ignored. */
  lemma DecodedChannels(c: Config, j: Json, num: Numerals)
    ensures var m, d := MembersOf(j), Decode(c, j, num);
            (if "numChannels" in m && m["numChannels"].Num? then d.numChannels == Trunc(m["numChannels"].n) % 256
             else d.numChannels == c.numChannels)
            && (if "channels" in m then
                  if m["channels"].Arr? then
                    |d.channels| == |m["channels"].elems|
                    && forall i :: 0 <= i < |d.channels| ==> d.channels[i] == DecodeChannel(m["channels"].elems[i])
                  else d.channels == c.channels
                else if d.numChannels > 0 then
                  |d.channels| == d.numChannels
                  && forall i :: 0 <= i < |d.channels| ==> d.channels[i] == Channel(0.0, 0.0, 0.0, 0.0, "", "")
                else d.channels == c.channels)
  {
    BlocksIndependent(c, j, num);
  }

  /** A side is read up to the first of frequency, gain and antenna that is missing or of the wrong type. */
  ghost predicate SideRead(m: map<string, Json>, side: string, freq: real, gain: real, ant: string) {
    var s := if side in m then MembersOf(m[side]) else map[];
    var hasFreq := "tune_freq" in s && s["tune_freq"].Num?;
    var hasGain := hasFreq && "gain" in s && s["gain"].Num?;
    var hasAnt := hasGain && "antenna" in s && s["antenna"].Str?;
    (freq == if hasFreq then s["tune_freq"].n else 0.0)
    && (gain == if hasGain then s["gain"].n else 0.0)
    && (ant == if hasAnt then s["antenna"].s else "")
  }

  lemma DecodedChannel(j: Json)
    ensures var m, c := MembersOf(j), DecodeChannel(j);
            SideRead(m, "tx", c.txFreq, c.txGain, c.txAnt) && SideRead(m, "rx", c.rxFreq, c.rxGain, c.rxAnt)
  {
  }

  /** A rate that is missing or no number is one million samples per second. */
  lemma DecodedRates(c: Config, j: Json, num: Numerals)
    ensures var m, d := MembersOf(j), Decode(c, j, num);
            if "sample_rate" in m then
              var s := MembersOf(m["sample_rate"]);
              (d.sampleRate.tx == if "tx" in s && s["tx"].Num? then s["tx"].n else 1000000.0)
              && (d.sampleRate.rx == if "rx" in s && s["rx"].Num? then s["rx"].n else 1000000.0)
            else d.sampleRate == c.sampleRate
  {
    BlocksIndependent(c, j, num);
  }

  /** The logical node as a number or a numeral, the node type as a whole number. */
  lemma DecodedNumbers(c: Config, j: Json, num: Numerals)
    ensures var m, d := MembersOf(j), Decode(c, j, num);
            (d.logicalNode == if "logical_node" !in m then c.logicalNode
                              else match m["logical_node"]
                                   case Num(n) => Trunc(n)
                                   case Str(s) => if num.stoi(s).Some? then num.stoi(s).value else c.logicalNode
                                   case _ => c.logicalNode)
            && (if "node_type" in m && m["node_type"].Num? && m["node_type"].n == m["node_type"].n.Floor as real
                then d.nodeType as real == m["node_type"].n else d.nodeType == c.nodeType)
  {
    BlocksIndependent(c, j, num);
  }

  /** A coordinate that is read: 0 if it is missing, none if it is neither a number nor a numeral. */
  ghost predicate CoordinateRead(l: map<string, Json>, k: string, parse: string -> Option<real>, x: Option<real>) {
    if k !in l then x == Some(0.0)
    else match l[k]
         case Num(n) => x == Some(n)
         case Str(s) => x == parse(s)
         case _ => x == None
  }

  /** The location is set when all three coordinates can be read, and kept otherwise. */
  lemma DecodedLocation(c: Config, j: Json, num: Numerals)
    returns (lat: Option<real>, lon: Option<real>, alt: Option<real>)
    ensures var m, d := MembersOf(j), Decode(c, j, num);
            if "location" in m && m["location"].Obj? then
              var l := m["location"].members;
              CoordinateRead(l, "lat", num.stod, lat) && CoordinateRead(l, "lon", num.stod, lon)
              && CoordinateRead(l, "alt", num.stof, alt)
              && d.location == if lat.Some? && lon.Some? && alt.Some?
                               then Some(Location(lat.value, lon.value, alt.value)) else c.location
            else d.location == c.location
  {
    lat, lon, alt := None, None, None;
    BlocksIndependent(c, j, num);
    var m := MembersOf(j);
    if "location" in m && m["location"].Obj? {
      var l := m["location"].members;
      lat, lon := Coordinate(l, "lat", num.stod), Coordinate(l, "lon", num.stod);
      alt := Coordinate(l, "alt", num.stof);
    }
  }

  /** A gain: the given number, else the old one, else the first channel's if that is more than 1e-12 away from
      zero. */
  ghost predicate GainRead(g: map<string, Json>, k: string, was: Option<real>, channels: seq<Channel>, first: real,
                           decoded: Option<real>)
  {
    if k in g && g[k].Num? then decoded == Some(g[k].n)
    else if was.Some? then decoded == was
    else if channels != [] && (first > 0.000000000001 || first < -0.000000000001) then decoded == Some(first)
    else decoded == None
  }

  lemma DecodedGains(c: Config, j: Json, num: Numerals)
    ensures var m, d := MembersOf(j), Decode(c, j, num);
            var g := if "gains" in m then MembersOf(m["gains"]) else map[];
            GainRead(g, "tx", c.txGain, d.channels, if d.channels == [] then 0.0 else d.channels[0].txGain, d.txGain)
            && GainRead(g, "rx", c.rxGain, d.channels, if d.channels == [] then 0.0 else d.channels[0].rxGain, d.rxGain)
  {
    BlocksIndependent(c, j, num);
  }
}
