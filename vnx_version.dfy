/** Software versions of an EMC VNX (cmk/base/legacy_checks/vnx_version.py):
    agent rows of component and version. */
module VnxVersion {
  import opened Base

  /** `inventory_vnx_version`: one service without item or parameters. */
  function InventoryVnxVersion(info: seq<seq<string>>): (r: seq<Service>)
    ensures r == [Service(None, false)]
  {
    [Service(None, false)]
  }

  /** `check_vnx_version`: one OK line "component: version" per row, in
      order; a row with fewer than two fields raises IndexError. */
  function CheckVnxVersion(info: seq<seq<string>>): (r: Result<seq<Output>>)
    ensures r.Ok? <==> forall i :: 0 <= i < |info| ==> |info[i]| >= 2
    ensures r.Raised? ==> r.error == "IndexError"
    ensures r.Ok? ==> |r.value| == |info|
    ensures r.Ok? ==> forall i :: 0 <= i < |info| ==> r.value[i] == Report(OK, info[i][0] + ": " + info[i][1])
  {
    if info == [] then Ok([])
    else
      var init, line := info[..|info| - 1], info[|info| - 1];
      assert forall i :: 0 <= i < |init| ==> init[i] == info[i];
      match CheckVnxVersion(init)
      case Raised(e) => Raised(e)
      case Ok(earlier) =>
        if |line| < 2 then Raised("IndexError")
        else Ok(earlier + [Report(OK, line[0] + ": " + line[1])])
  }

  /** The service is always OK: no line the check produces is anything else. */
  lemma {:induction false} AlwaysOk(info: seq<seq<string>>, o: Output)
    requires CheckVnxVersion(info).Ok? && o in CheckVnxVersion(info).value
    ensures o.Report? && o.state == OK
  {
    var i :| 0 <= i < |CheckVnxVersion(info).value| && CheckVnxVersion(info).value[i] == o;
  }
}
