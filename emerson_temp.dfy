/** Temperatures of an Emerson power system (cmk/base/legacy_checks/emerson_temp.py):
    one reading in milli-degrees per row; missing sensors read -999999. */
module EmersonTemp {
  import opened Base
  import Strings

  /** Readings below this mark a sensor as missing. */
  const OfflineBelow: int := -273000

  /** Whether a row's reading counts as present: `int(value) >= -273000`,
      None where `int` raises. */
  function Present(value: string): Option<bool> {
    match Strings.ParseInt(value)
    case None => None
    case Some(v) => Some(v >= OfflineBelow)
  }

  /** `inventory_emerson_temp`: the row index, as a string, of every row with
      a present reading, in row order; a row `int` cannot read raises. */
  function InventoryEmersonTemp(info: seq<string>): (r: Result<seq<Service>>)
    ensures r.Ok? <==> forall i :: 0 <= i < |info| ==> Strings.ParseInt(info[i]).Some?
    ensures r.Ok? ==> forall s :: s in r.value <==>
      exists i :: 0 <= i < |info| && Present(info[i]) == Some(true) && s == Service(Some(Strings.IntToString(i)), true)
  {
    if info == [] then Ok([])
    else
      var n := |info| - 1;
      var init := info[..n];
      assert forall i :: 0 <= i < |init| ==> init[i] == info[i];
      match InventoryEmersonTemp(init)
      case Raised(e) => Raised(e)
      case Ok(services) =>
        match Present(info[n])
        case None => Raised("ValueError")
        case Some(present) =>
          if present then Ok(services + [Service(Some(Strings.IntToString(n)), true)]) else Ok(services)
  }

  /** Python's `info[k]` for an integer `k`: a negative index counts from the end. */
  function PyIndex(n: nat, k: int): (r: Option<nat>)
    ensures r.Some? <==> -(n as int) <= k < n
    ensures r.Some? ==> r.value < n && (r.value == k || r.value == k + n)
  {
    if 0 <= k < n then Some(k) else if -(n as int) <= k < 0 then Some(k + n) else None
  }

  /** `check_emerson_temp`: `int(item)` picks the row (an index past the end
      gives nothing); a reading below -273000 is "Sensor offline", anything
      else is handed on in degrees. */
  function CheckEmersonTemp(item: string, info: seq<string>): (r: Result<Option<Output>>)
    ensures Strings.ParseInt(item).None? ==> r == Raised("ValueError")
    ensures Strings.ParseInt(item).Some? && Strings.ParseInt(item).value >= |info| ==> r == Ok(None)
  {
    match Strings.ParseInt(item)
    case None => Raised("ValueError")
    case Some(k) =>
      if k >= |info| then Ok(None)
      else
        match PyIndex(|info|, k)
        case None => Raised("IndexError")
        case Some(idx) =>
          match Strings.ParseInt(info[idx])
          case None => Raised("ValueError")
          case Some(v) =>
            if v < OfflineBelow then Ok(Some(Report(UNKNOWN, "Sensor offline")))
            else
              Strings.ParseRealExtendsParseInt(info[idx]);
              Ok(Some(Delegate(CheckTemperature(true, v as real / 1000.0, "emerson_temp_" + item, None, None, None, None))))
  }

  /** Discovery and check agree: a row's index is discovered exactly when
      its check does not say "Sensor offline", and then the reading goes on
      in degrees. */
  lemma {:induction false} OfflineIsUndiscovered(info: seq<string>, i: nat)
    requires InventoryEmersonTemp(info).Ok? && i < |info|
    ensures var item := Strings.IntToString(i);
      && (Service(Some(item), true) in InventoryEmersonTemp(info).value <==>
          CheckEmersonTemp(item, info) != Ok(Some(Report(UNKNOWN, "Sensor offline"))))
      && (Service(Some(item), true) in InventoryEmersonTemp(info).value ==>
          CheckEmersonTemp(item, info) == Ok(Some(Delegate(CheckTemperature(true, Strings.ParseInt(info[i]).value as real / 1000.0,
                                                                            "emerson_temp_" + item, None, None, None, None)))))
  {
    var item := Strings.IntToString(i);
    Strings.ParseIntRoundTrip(i);
    IntToStringInjective(i);
  }

  /** Distinct row indices give distinct items. */
  lemma {:induction false} IntToStringInjective(i: nat)
    ensures forall j: nat :: Strings.IntToString(j) == Strings.IntToString(i) ==> j == i
  {
    forall j: nat | Strings.IntToString(j) == Strings.IntToString(i)
      ensures j == i
    {
      Strings.ParseIntRoundTrip(i);
      Strings.ParseIntRoundTrip(j);
    }
  }
}
