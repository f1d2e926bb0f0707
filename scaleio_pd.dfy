/** Protection domains of a ScaleIO cluster (cmk/base/legacy_checks/scaleio_pd.py):
    capacity and status of each domain, read from the tokens of its section
    lines ("MAX_CAPACITY_IN_KB 65.5 TB (67059 GB)"). */
module ScaleioPd {
  import opened Base
  import opened Dicts
  import Strings

  /** One domain's section lines: each key with the whitespace-separated
      tokens of its value. */
  type DomainData = Dict<string, seq<string>>

  /** The prefix the status check removes from the state token. */
  const StatePrefix: string := "PROTECTION_DOMAIN_"

  /** `data[key][idx]`: KeyError for a missing line, IndexError for a missing token. */
  function Token(data: DomainData, key: string, idx: nat): (r: Result<string>)
    ensures r.Ok? <==> Get(data, key).Some? && idx < |Get(data, key).value|
    ensures r.Ok? ==> r.value == Get(data, key).value[idx]
    ensures Get(data, key).None? ==> r == Raised("KeyError")
  {
    match Get(data, key)
    case None => Raised("KeyError")
    case Some(tokens) => if idx < |tokens| then Ok(tokens[idx]) else Raised("IndexError")
  }

  /** `inventory_scaleio_pd`: every parsed domain, with default parameters. */
  function InventoryScaleioPd(parsed: Dict<string, DomainData>): (r: seq<Service>)
    ensures |r| == |parsed|
    ensures forall i :: 0 <= i < |parsed| ==> r[i] == Service(Some(parsed[i].0), true)
  {
    if parsed == [] then [] else InventoryScaleioPd(parsed[..|parsed| - 1]) + [Service(Some(parsed[|parsed| - 1].0), true)]
  }

  /** `inventory_scaleio_pd_status`: every parsed domain, without parameters. */
  function InventoryScaleioPdStatus(parsed: Dict<string, DomainData>): (r: seq<Service>)
    ensures |r| == |parsed|
    ensures forall i :: 0 <= i < |parsed| ==> r[i] == Service(Some(parsed[i].0), false)
  {
    if parsed == [] then [] else InventoryScaleioPdStatus(parsed[..|parsed| - 1]) + [Service(Some(parsed[|parsed| - 1].0), false)]
  }

  /** `int(token.strip("("))`. */
  function SizeOf(token: string): Option<int> {
    Strings.ParseInt(Strings.Strip(token, '('))
  }

  /** `check_scaleio_pd`: `data` is what the data lookup found for the item
      (None or an empty dict when nothing). The unit is the fourth token of
      the maximum capacity with ")" stripped; both sizes are the third token
      with "(" stripped, read with `int` and converted by `convert` (the
      ScaleIO unit conversion); the filesystem helper gets the single entry
      (item, total, free, 0). */
  function CheckScaleioPd(item: string, data: Option<DomainData>, convert: (string, int) -> real): (r: Result<Option<Output>>)
    ensures data.None? || data.value == [] ==> r == Ok(None)
    ensures r.Ok? && r.value.Some? ==> r.value.value.Delegate? && r.value.value.call.DfCheckFilesystemList?
    ensures r.Ok? && r.value.Some? ==> r.value.value.call.item == item && r.value.value.call.reserved == 0.0
    ensures data.Some? && data.value != [] && Get(data.value, "MAX_CAPACITY_IN_KB").None? ==> r == Raised("KeyError")
  {
    if data.None? || data.value == [] then Ok(None)
    else
      match Get(data.value, "MAX_CAPACITY_IN_KB")
      case None => Raised("KeyError")
      case Some(maxTokens) =>
        if |maxTokens| < 4 then Raised("IndexError")
        else
          var unit := Strings.Strip(maxTokens[3], ')');
          match SizeOf(maxTokens[2])
          case None => Raised("ValueError")
          case Some(maxSize) =>
            match Get(data.value, "UNUSED_CAPACITY_IN_KB")
            case None => Raised("KeyError")
            case Some(unusedTokens) =>
              if |unusedTokens| < 3 then Raised("IndexError")
              else
                match SizeOf(unusedTokens[2])
                case None => Raised("ValueError")
                case Some(unusedSize) =>
                  Ok(Some(Delegate(DfCheckFilesystemList(item, convert(unit, maxSize), convert(unit, unusedSize), 0.0))))
  }

  lemma StripOpening(s: string)
    requires s != [] && s[0] != '(' && s[|s| - 1] != '('
    ensures Strings.Strip("(" + s, '(') == s
  {
    assert ("(" + s)[1..] == s;
  }

  lemma StripClosing(s: string)
    requires s != [] && s[0] != ')' && s[|s| - 1] != ')'
    ensures Strings.Strip(s + ")", ')') == s
  {
    assert (s + ")")[..|s|] == s;
  }

  /** From agent line to helper call: with the capacity lines written as
      "<size> <unit> (<digits> <unit>)", total and free are the converted
      numbers in brackets, in the bracketed unit. */
  lemma {:induction false} CapacityOfBracketedSizes(item: string, d: DomainData, convert: (string, int) -> real,
                                                    maxTokens: seq<string>, unusedTokens: seq<string>,
                                                    maxDigits: string, unusedDigits: string, unit: string)
    requires d != []
    requires Get(d, "MAX_CAPACITY_IN_KB") == Some(maxTokens) && Get(d, "UNUSED_CAPACITY_IN_KB") == Some(unusedTokens)
    requires |maxTokens| == 4 && maxTokens[2] == "(" + maxDigits && maxTokens[3] == unit + ")"
    requires |unusedTokens| >= 3 && unusedTokens[2] == "(" + unusedDigits
    requires maxDigits != [] && Strings.AllDigits(maxDigits) && unusedDigits != [] && Strings.AllDigits(unusedDigits)
    requires unit != [] && unit[0] != ')' && unit[|unit| - 1] != ')'
    ensures CheckScaleioPd(item, Some(d), convert)
         == Ok(Some(Delegate(DfCheckFilesystemList(item, convert(unit, Strings.DigitsValue(maxDigits)),
                                                   convert(unit, Strings.DigitsValue(unusedDigits)), 0.0))))
  {
    StripClosing(unit);
    BracketedSize(maxDigits);
    BracketedSize(unusedDigits);
  }

  /** "(<digits>" with the bracket stripped reads as the digits' value. */
  lemma BracketedSize(m: string)
    requires m != [] && Strings.AllDigits(m)
    ensures SizeOf("(" + m) == Some(Strings.DigitsValue(m))
  {
    assert Strings.IsDigit(m[0]) && Strings.IsDigit(m[|m| - 1]);
    StripOpening(m);
  }

  /** `check_scaleio_pd_status`: the state token with every
      "PROTECTION_DOMAIN_" removed is the status; it is OK exactly when that
      is "ACTIVE" and CRIT otherwise; the name is the first NAME token. */
  function CheckScaleioPdStatus(data: Option<DomainData>): (r: Result<Option<Output>>)
    ensures data.None? || data.value == [] ==> r == Ok(None)
    ensures r.Ok? && r.value.Some? ==> r.value.value.Report? && r.value.value.state in {OK, CRIT}
    ensures data.Some? && data.value != [] ==>
      (r.Ok? <==> Token(data.value, "STATE", 0).Ok? && Token(data.value, "NAME", 0).Ok?)
    // the prefix is removed wherever it occurs in the state token
    ensures data.Some? && data.value != [] && r.Ok? ==>
      var status := Strings.ReplaceAll(Token(data.value, "STATE", 0).value, StatePrefix, "");
      r == Ok(Some(Report(if status == "ACTIVE" then OK else CRIT,
                          "Name: " + Token(data.value, "NAME", 0).value + ", State: " + status)))
  {
    if data.None? || data.value == [] then Ok(None)
    else
      var stateToken :- Token(data.value, "STATE", 0);
      var status := Strings.ReplaceAll(stateToken, StatePrefix, "");
      var state := if status == "ACTIVE" then OK else CRIT;
      var name :- Token(data.value, "NAME", 0);
      Ok(Some(Report(state, "Name: " + name + ", State: " + status)))
  }

  /** A state token "PROTECTION_DOMAIN_<s>" reads as <s> (when <s> holds no
      second prefix), and the domain is OK exactly when <s> is "ACTIVE". */
  lemma {:induction false} StatusOfPrefixedState(d: DomainData, s: string, name: string)
    requires d != [] && !Strings.Contains(s, StatePrefix)
    requires Get(d, "STATE").Some? && |Get(d, "STATE").value| > 0 && Get(d, "STATE").value[0] == StatePrefix + s
    requires Get(d, "NAME").Some? && |Get(d, "NAME").value| > 0 && Get(d, "NAME").value[0] == name
    ensures CheckScaleioPdStatus(Some(d)) == Ok(Some(Report(if s == "ACTIVE" then OK else CRIT, "Name: " + name + ", State: " + s)))
  {
    Strings.ReplaceAllPrefix(StatePrefix, s, "");
    Strings.ReplaceAllAbsent(s, StatePrefix, "");
    assert Strings.ReplaceAll(StatePrefix + s, StatePrefix, "") == s;
  }
}
