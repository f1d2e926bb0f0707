/** The `lnx_if_sys_class_net` agent section
    (cmk/base/plugins/agent_based/section_lnx_if_sys_class_net.py): one line
    per network interface, each token a sysfs attribute `name\vvalue`, turned
    into interface attributes and counters. */
module LnxIf {
  import opened Base
  import opened Dicts
  import Strings

  const Separator: char := '\U{000B}'

  /** `k, v = stats.split("\v")`: anything but exactly two parts raises. */
  function SplitStat(token: string): (r: Result<(string, string)>)
    ensures r.Ok? <==> Strings.Count(token, Separator) == 1
    ensures r.Raised? ==> r.error == "ValueError"
    ensures r.Ok? ==> token == r.value.0 + [Separator] + r.value.1
    ensures r.Ok? ==> Separator !in r.value.0 && Separator !in r.value.1
  {
    var parts := Strings.Split(token, Separator);
    Strings.JoinSplit(token, Separator);
    if |parts| != 2 then Raised("ValueError")
    else
      assert Strings.Join(parts, Separator) == parts[0] + [Separator] + parts[1];
      Ok((parts[0], parts[1]))
  }

  /** Every token of a line split on its own. */
  function SplitStats(line: seq<string>): (r: seq<Result<(string, string)>>)
    ensures |r| == |line| && forall i :: 0 <= i < |line| ==> r[i] == SplitStat(line[i])
  {
    if line == [] then [] else SplitStats(line[..|line| - 1]) + [SplitStat(line[|line| - 1])]
  }

  /** `_parse_raw_stats`: the attributes of one line, the last value of a
      repeated name winning. */
  function RawStats(line: seq<string>): (r: Result<Dict<string, string>>)
    ensures r.Ok? <==> forall i :: 0 <= i < |line| ==> Strings.Count(line[i], Separator) == 1
    ensures r.Ok? ==> DistinctKeys(r.value)
  {
    var rows := SplitStats(line);
    AssignAllOk(rows);
    if AssignAll(rows).Ok? then FromPairsDistinct(OkValues(rows)); AssignAll(rows) else AssignAll(rows)
  }

  /** The loop of `_parse_raw_stats`. */
  method ParseRawStats(line: seq<string>) returns (r: Result<Dict<string, string>>)
    ensures r == RawStats(line)
  {
    ghost var rows := SplitStats(line);
    var rawStats: Dict<string, string> := [];
    var i := 0;
    while i < |line|
      invariant 0 <= i <= |line|
      invariant AssignAll(rows[..i]) == Ok(rawStats)
    {
      assert rows[..i + 1][..i] == rows[..i];
      var kv := SplitStat(line[i]);
      if kv.Raised? {
        r := Raised(kv.error);
        AssignAllRaisedStays(rows, i + 1);
        return;
      }
      rawStats := Set(rawStats, kv.value.0, kv.value.1);
      i := i + 1;
    }
    assert rows[..i] == rows;
    r := Ok(rawStats);
  }

  /** Splitting undoes joining: a name and a value without separators,
      joined by one, split back into the two. */
  lemma {:induction false} SplitStatJoined(name: string, value: string)
    requires Separator !in name && Separator !in value
    ensures SplitStat(name + [Separator] + value) == Ok((name, value))
  {
    Strings.SplitAroundSeparator(name, value, Separator);
  }

  /** Each attribute name of a parsed line maps to the value of its last token. */
  lemma {:induction false} RawStatsLastWins(line: seq<string>, i: nat, name: string, value: string)
    requires RawStats(line).Ok?
    requires i < |line| && line[i] == name + [Separator] + value && Separator !in name && Separator !in value
    requires forall j :: i < j < |line| ==> !Strings.StartsWith(line[j], name + [Separator])
    ensures Get(RawStats(line).value, name) == Some(value)
  {
    var rows := SplitStats(line);
    AssignAllOk(rows);
    var pairs := OkValues(rows);
    SplitStatJoined(name, value);
    forall j | i < j < |line|
      ensures pairs[j].0 != name
    {
      var p := pairs[j].0 + [Separator];
      assert line[j] == p + pairs[j].1;
      assert line[j][..|p|] == p;
    }
    FromPairsLastWins(pairs, i);
  }

  /** The doctest of `_parse_raw_stats`. */
  lemma {:induction false} RawStatsExample(line: seq<string>)
    requires line == ["ifindex" + [Separator] + "4", "ifalias" + [Separator] + "", "speed" + [Separator] + "0"]
    ensures RawStats(line) == Ok([("ifindex", "4"), ("ifalias", ""), ("speed", "0")])
  {
    var rows := [Ok(("ifindex", "4")), Ok(("ifalias", "")), Ok(("speed", "0"))];
    ExampleTokens(line, rows);
    var d1 := [("ifindex", "4")];
    var d2 := d1 + [("ifalias", "")];
    assert AssignAll(rows[..1]) == Ok(d1);
    assert "ifalias" != "ifindex" by { assert "ifalias"[3] != "ifindex"[3]; }
    assert Set(d1, "ifalias", "") == d2;
    assert rows[..2][..1] == rows[..1];
    assert AssignAll(rows[..2]) == Ok(d2);
    assert "speed" != "ifindex" && "speed" != "ifalias" by { assert |"speed"| != |"ifindex"| && |"speed"| != |"ifalias"|; }
    assert Set(d2[1..], "speed", "0") == [("ifalias", ""), ("speed", "0")] by {
      assert d2[1..] == [("ifalias", "")] && d2[1..][1..] == [];
    }
    assert Set(d2, "speed", "0") == d2 + [("speed", "0")];
    assert rows[..2] == rows[..|rows| - 1];
    assert AssignAll(rows) == Ok(Set(d2, "speed", "0"));
    assert d2 + [("speed", "0")] == [("ifindex", "4"), ("ifalias", ""), ("speed", "0")];
    assert RawStats(line) == AssignAll(rows);
  }

  lemma {:induction false} ExampleTokens(line: seq<string>, rows: seq<Result<(string, string)>>)
    requires line == ["ifindex" + [Separator] + "4", "ifalias" + [Separator] + "", "speed" + [Separator] + "0"]
    requires rows == [Ok(("ifindex", "4")), Ok(("ifalias", "")), Ok(("speed", "0"))]
    ensures SplitStats(line) == rows
  {
    SplitStatJoined("ifindex", "4");
    SplitStatJoined("ifalias", "");
    SplitStatJoined("speed", "0");
    var r := SplitStats(line);
    assert r[0] == rows[0] && r[1] == rows[1] && r[2] == rows[2];
  }

  // ---- speed and carrier ----------------------------------------------------------------

  /** `_parse_speed`: sysfs reports Mbit/s; an empty file and "-1" mean
      unknown and become 0. */
  function ParseSpeed(speed: string): (r: Result<real>)
    ensures r.Raised? ==> r.error == "ValueError"
    ensures r.Ok? <==> speed == "" || speed == "-1" || Strings.ParseReal(speed).Some?
    ensures speed == "" || speed == "-1" ==> r == Ok(0.0)
    ensures r.Ok? && speed != "" && speed != "-1" ==> r.value == Strings.ParseReal(speed).value * 1000000.0
  {
    if speed == "" || speed == "-1" then Ok(0.0)
    else
      match Strings.ParseReal(speed)
      case None => Raised("ValueError")
      case Some(mbit) => Ok(mbit * 1000000.0)
  }

  /** A speed the kernel wrote as a decimal integer is read back in bit/s,
      except the marker -1 for an unknown speed. */
  lemma {:induction false} ParseSpeedOfInteger(mbit: int)
    ensures ParseSpeed(Strings.IntToString(mbit)) == if mbit == -1 then Ok(0.0) else Ok(mbit as real * 1000000.0)
  {
    var s := Strings.IntToString(mbit);
    Strings.ParseIntRoundTrip(mbit);
    Strings.ParseRealExtendsParseInt(s);
    if mbit == -1 {
      assert s == "-" + Strings.NatToString(1);
    } else {
      assert s != "" && s != "-1" by {
        if mbit < 0 {
          assert Strings.ParseInt(s) != Strings.ParseInt("-1");
        } else {
          assert s == Strings.NatToString(mbit) && s[0] != '-';
        }
      }
    }
  }

  /** The doctests of `_parse_speed`. */
  lemma {:induction false} ParseSpeedExamples()
    ensures ParseSpeed("") == Ok(0.0) && ParseSpeed("-1") == Ok(0.0)
    ensures ParseSpeed("0") == Ok(0.0) && ParseSpeed("5") == Ok(5000000.0)
  {
    ParseSpeedOfInteger(0);
    ParseSpeedOfInteger(5);
    assert Strings.IntToString(0) == "0" && Strings.IntToString(5) == "5";
  }

  /** `InterfaceStatus`, whose values are the IF-MIB operational states. */
  datatype InterfaceStatus = Up | Down {
    function Value(): string {
      if Up? then "1" else "2"
    }
  }

  /** `_parse_interface_status`: carrier 1 is up, 0 is down, anything else raises. */
  function ParseInterfaceStatus(carrier: string): (r: Result<InterfaceStatus>)
    ensures r == Ok(Up) <==> carrier == "1"
    ensures r == Ok(Down) <==> carrier == "0"
    ensures r.Raised? <==> carrier != "1" && carrier != "0"
  {
    if carrier == "1" then Ok(Up)
    else if carrier == "0" then Ok(Down)
    else Raised("ValueError")
  }

  /** The operational status reported is "1" exactly for carrier 1 and "2"
      exactly for carrier 0. */
  lemma {:induction false} OperStatusOfCarrier(carrier: string)
    requires ParseInterfaceStatus(carrier).Ok?
    ensures ParseInterfaceStatus(carrier).value.Value() == "1" <==> carrier == "1"
    ensures ParseInterfaceStatus(carrier).value.Value() == "2" <==> carrier == "0"
  {
  }

  // ---- interfaces -------------------------------------------------------------------

  datatype Attributes = Attributes(index: string, descr: string, alias: string, ifType: string, speed: real,
                                   operStatus: string, physAddress: string, outQlen: real)

  datatype Counters = Counters(inOctets: real, inUcast: real, inMcast: real, inDisc: real, inErr: real,
                               outOctets: real, outUcast: real, outDisc: real, outErr: real)

  /** `InterfaceWithCounters`. */
  datatype Interface = Interface(attributes: Attributes, counters: Counters)

  /** `raw_stats[key]`: KeyError for a missing attribute. */
  function Field(raw: Dict<string, string>, key: string): (r: Result<string>)
    ensures r.Ok? <==> Get(raw, key).Some?
    ensures r.Ok? ==> r.value == Get(raw, key).value
    ensures r.Raised? ==> r.error == "KeyError"
  {
    match Get(raw, key)
    case None => Raised("KeyError")
    case Some(v) => Ok(v)
  }

  /** `float(raw_stats[key])`. */
  function Number(raw: Dict<string, string>, key: string): (r: Result<real>)
    ensures r.Ok? <==> Get(raw, key).Some? && Strings.ParseReal(Get(raw, key).value).Some?
    ensures r.Ok? ==> r.value == Strings.ParseReal(Get(raw, key).value).value
  {
    var v :- Field(raw, key);
    match Strings.ParseReal(v)
    case None => Raised("ValueError")
    case Some(x) => Ok(x)
  }

  /** The `Attributes` built by `_create_interface`, with
      `mac_address_from_hexstring` as the parameter `macOf`. */
  function CreateAttributes(raw: Dict<string, string>, macOf: string -> string): (r: Result<Attributes>)
    ensures r.Ok? <==>
      && (forall k :: k in AttributeKeys ==> Get(raw, k).Some?)
      && ParseSpeed(Get(raw, "speed").value).Ok?
      && (Get(raw, "carrier").value == "1" || Get(raw, "carrier").value == "0")
      && Number(raw, "tx_fifo_errors").Ok?
    ensures r.Ok? ==>
      && r.value.index == Get(raw, "ifindex").value
      && r.value.descr == Get(raw, "name").value
      && r.value.alias == Get(raw, "ifalias").value
      && r.value.ifType == Get(raw, "type").value
      && Ok(r.value.speed) == ParseSpeed(Get(raw, "speed").value)
      && (r.value.operStatus == "1" <==> Get(raw, "carrier").value == "1")
      && (r.value.operStatus == "2" <==> Get(raw, "carrier").value == "0")
      && r.value.physAddress == macOf(Get(raw, "address").value)
      && Ok(r.value.outQlen) == Number(raw, "tx_fifo_errors")
  {
    var index :- Field(raw, "ifindex");
    var descr :- Field(raw, "name");
    var alias :- Field(raw, "ifalias");
    var ifType :- Field(raw, "type");
    var speedText :- Field(raw, "speed");
    var speed :- ParseSpeed(speedText);
    var carrier :- Field(raw, "carrier");
    var status :- ParseInterfaceStatus(carrier);
    var address :- Field(raw, "address");
    var outQlen :- Number(raw, "tx_fifo_errors");
    Ok(Attributes(index, descr, alias, ifType, speed, status.Value(), macOf(address), outQlen))
  }

  const AttributeKeys: set<string> :=
    {"ifindex", "name", "ifalias", "type", "speed", "carrier", "address", "tx_fifo_errors"}

  /** The four receive counters, in the order they are read: bytes, packets,
      dropped, errors. */
  function ReceiveNumbers(raw: Dict<string, string>): (r: Result<(real, real, real, real)>)
    ensures r.Ok? <==>
      && Number(raw, "rx_bytes").Ok? && Number(raw, "rx_packets").Ok?
      && Number(raw, "rx_dropped").Ok? && Number(raw, "rx_errors").Ok?
    ensures r.Ok? ==> Ok(r.value.0) == Number(raw, "rx_bytes") && Ok(r.value.1) == Number(raw, "rx_packets")
    ensures r.Ok? ==> Ok(r.value.2) == Number(raw, "rx_dropped") && Ok(r.value.3) == Number(raw, "rx_errors")
  {
    var octets :- Number(raw, "rx_bytes");
    var packets :- Number(raw, "rx_packets");
    var dropped :- Number(raw, "rx_dropped");
    var errors :- Number(raw, "rx_errors");
    Ok((octets, packets, dropped, errors))
  }

  /** The four transmit counters, in the order they are read. */
  function TransmitNumbers(raw: Dict<string, string>): (r: Result<(real, real, real, real)>)
    ensures r.Ok? <==>
      && Number(raw, "tx_bytes").Ok? && Number(raw, "tx_packets").Ok?
      && Number(raw, "tx_dropped").Ok? && Number(raw, "tx_errors").Ok?
    ensures r.Ok? ==> Ok(r.value.0) == Number(raw, "tx_bytes") && Ok(r.value.1) == Number(raw, "tx_packets")
    ensures r.Ok? ==> Ok(r.value.2) == Number(raw, "tx_dropped") && Ok(r.value.3) == Number(raw, "tx_errors")
  {
    var octets :- Number(raw, "tx_bytes");
    var packets :- Number(raw, "tx_packets");
    var dropped :- Number(raw, "tx_dropped");
    var errors :- Number(raw, "tx_errors");
    Ok((octets, packets, dropped, errors))
  }

  /** The `Counters` built by `_create_interface`: unicast packets in are
      counted as all received packets plus the multicast ones. */
  function CreateCounters(raw: Dict<string, string>, multicast: real): (r: Result<Counters>)
    ensures r.Ok? ==> r.value.inMcast == multicast
    ensures r.Ok? ==> Ok(r.value.inUcast - multicast) == Number(raw, "rx_packets")
    ensures r.Ok? <==> ReceiveNumbers(raw).Ok? && TransmitNumbers(raw).Ok?
    ensures r.Ok? ==> Ok(r.value.inOctets) == Number(raw, "rx_bytes") && Ok(r.value.outOctets) == Number(raw, "tx_bytes")
    ensures r.Ok? ==> Ok(r.value.inDisc) == Number(raw, "rx_dropped") && Ok(r.value.inErr) == Number(raw, "rx_errors")
    ensures r.Ok? ==> Ok(r.value.outUcast) == Number(raw, "tx_packets")
    ensures r.Ok? ==> Ok(r.value.outDisc) == Number(raw, "tx_dropped") && Ok(r.value.outErr) == Number(raw, "tx_errors")
  {
    var rx :- ReceiveNumbers(raw);
    var tx :- TransmitNumbers(raw);
    Ok(Counters(rx.0, rx.1 + multicast, multicast, rx.2, rx.3, tx.0, tx.1, tx.2, tx.3))
  }

  /** `_create_interface`: `multicast` is read first, then the attributes,
      then the counters; a missing attribute raises KeyError. */
  function CreateInterface(raw: Dict<string, string>, macOf: string -> string): (r: Result<Interface>)
    ensures r.Ok? <==>
      && Number(raw, "multicast").Ok? && CreateAttributes(raw, macOf).Ok?
      && CreateCounters(raw, Number(raw, "multicast").value).Ok?
    ensures r.Ok? ==>
      r.value == Interface(CreateAttributes(raw, macOf).value, CreateCounters(raw, Number(raw, "multicast").value).value)
  {
    match Number(raw, "multicast")
    case Raised(e) => Raised(e)
    case Ok(multicast) =>
      match CreateAttributes(raw, macOf)
      case Raised(e) => Raised(e)
      case Ok(attributes) =>
        match CreateCounters(raw, multicast)
        case Raised(e) => Raised(e)
        case Ok(counters) => Ok(Interface(attributes, counters))
  }

  /** One line of the section: its attributes, then the interface. */
  function InterfaceOfLine(line: seq<string>, macOf: string -> string): (r: Result<Interface>)
    ensures r.Ok? ==> forall i :: 0 <= i < |line| ==> Strings.Count(line[i], Separator) == 1
    ensures r.Ok? ==> CreateInterface(RawStats(line).value, macOf) == r
    ensures r.Ok? ==>
      && Ok(r.value.counters.inMcast) == Number(RawStats(line).value, "multicast")
      && r.value.attributes.index == Get(RawStats(line).value, "ifindex").value
  {
    match RawStats(line)
    case Raised(e) => Raised(e)
    case Ok(raw) => CreateInterface(raw, macOf)
  }

  /** Every line on its own. */
  function InterfaceRows(table: seq<seq<string>>, macOf: string -> string): (r: seq<Result<Interface>>)
    ensures |r| == |table| && forall i :: 0 <= i < |table| ==> r[i] == InterfaceOfLine(table[i], macOf)
  {
    if table == [] then [] else InterfaceRows(table[..|table| - 1], macOf) + [InterfaceOfLine(table[|table| - 1], macOf)]
  }

  /** The list comprehension of `parse_lnx_if_sys_class_net`: one interface per
      line in line order; the parse raises exactly when some line raises,
      with the first such line's error. */
  function Interfaces(table: seq<seq<string>>, macOf: string -> string): (r: Result<seq<Interface>>)
    ensures r.Ok? <==> forall i :: 0 <= i < |table| ==> InterfaceOfLine(table[i], macOf).Ok?
    ensures r.Ok? ==> |r.value| == |table|
    ensures r.Ok? ==> forall i :: 0 <= i < |table| ==> r.value[i] == InterfaceOfLine(table[i], macOf).value
  {
    Collect(InterfaceRows(table, macOf))
  }

  /** A raising parse raises with the error of the first line that raises. */
  lemma {:induction false} InterfacesRaiseFirst(table: seq<seq<string>>, macOf: string -> string)
    requires Interfaces(table, macOf).Raised?
    ensures exists k ::
      && 0 <= k < |table|
      && InterfaceOfLine(table[k], macOf) == Raised(Interfaces(table, macOf).error)
      && forall j :: 0 <= j < k ==> InterfaceOfLine(table[j], macOf).Ok?
  {
    var rows := InterfaceRows(table, macOf);
    var k :| 0 <= k < |rows| && rows[k] == Raised(Collect(rows).error) && forall j :: 0 <= j < k ==> rows[j].Ok?;
    assert InterfaceOfLine(table[k], macOf) == Raised(Interfaces(table, macOf).error);
  }

  /** `parse_lnx_if_sys_class_net`: the interfaces, and no extra data. */
  function ParseLnxIfSysClassNet(table: seq<seq<string>>, macOf: string -> string)
    : (r: Result<(seq<Interface>, map<string, map<string, string>>)>)
    ensures r.Ok? <==> Interfaces(table, macOf).Ok?
    ensures r.Ok? ==> r.value.0 == Interfaces(table, macOf).value && r.value.1 == map[]
  {
    var ifs :- Interfaces(table, macOf);
    Ok((ifs, map[]))
  }

  /** From tokens to interface: the description, index and alias of an
      interface are the values of the last `name`, `ifindex` and `ifalias`
      tokens of its line. */
  lemma {:induction false} InterfaceNamedByLastToken(line: seq<string>, macOf: string -> string,
                                                     key: string, i: nat, value: string)
    requires InterfaceOfLine(line, macOf).Ok?
    requires key == "name" || key == "ifindex" || key == "ifalias"
    requires i < |line| && line[i] == key + [Separator] + value && Separator !in value
    requires forall j :: i < j < |line| ==> !Strings.StartsWith(line[j], key + [Separator])
    ensures
      var a := InterfaceOfLine(line, macOf).value.attributes;
      value == if key == "name" then a.descr else if key == "ifindex" then a.index else a.alias
  {
    AttributesOfLine(line, macOf);
    var raw := RawStats(line).value;
    var a := CreateAttributes(raw, macOf).value;
    assert InterfaceOfLine(line, macOf).value.attributes == a;
    NoSeparatorInKey(key);
    RawStatsLastWins(line, i, key, value);
    if key == "name" {
      assert a.descr == value;
    } else if key == "ifindex" {
      assert a.index == value;
    } else {
      assert a.alias == value;
    }
  }

  lemma NoSeparatorInKey(key: string)
    requires key == "name" || key == "ifindex" || key == "ifalias"
    ensures Separator !in key
  {
  }

  lemma {:induction false} AttributesOfLine(line: seq<string>, macOf: string -> string)
    requires InterfaceOfLine(line, macOf).Ok?
    ensures RawStats(line).Ok? && CreateAttributes(RawStats(line).value, macOf).Ok?
    ensures InterfaceOfLine(line, macOf).value.attributes == CreateAttributes(RawStats(line).value, macOf).value
  {
  }
}
