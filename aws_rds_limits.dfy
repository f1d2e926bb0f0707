/** AWS RDS limits (cmk/base/legacy_checks/aws_rds_limits.py): the lines the
    AWS section parser produced, grouped by region, with allocated storage
    scaled from TiB to bytes. */
module AwsRdsLimits {
  import opened Base
  import opened Dicts

  /** One parsed line: resource key, title, limit, amount and region. */
  datatype LimitLine = LimitLine(key: string, title: string, limit: real, amount: real, region: string)

  /** How a limit is rendered: as bytes, or with `int`. */
  datatype Formatter = BytesHumanReadable | IntFormatter

  /** One entry of a region's list: key, title, limit, amount and formatter. */
  datatype LimitEntry = LimitEntry(key: string, title: string, limit: real, amount: real, format: Formatter)

  /** The resource whose limit and amount come in TiB. */
  const AllocatedStorage: string := "allocated_storage"

  /** `1024**4 / 1000.0`. */
  const StorageFactor: real := 1099511627776.0 / 1000.0

  /** The entry a line becomes. */
  function Entry(line: LimitLine): (e: LimitEntry)
    ensures e.key == line.key && e.title == line.title
    ensures line.key == AllocatedStorage ==>
      e.limit == line.limit * StorageFactor && e.amount == line.amount * StorageFactor && e.format == BytesHumanReadable
    ensures line.key != AllocatedStorage ==>
      e.limit == line.limit && e.amount == line.amount && e.format == IntFormatter
  {
    if line.key == AllocatedStorage
    then LimitEntry(line.key, line.title, line.limit * StorageFactor, line.amount * StorageFactor, BytesHumanReadable)
    else LimitEntry(line.key, line.title, line.limit, line.amount, IntFormatter)
  }

  /** The parse as a value: each line's entry appended to its region's list. */
  function Grouped(lines: seq<LimitLine>): (r: Dict<string, seq<LimitEntry>>)
    ensures DistinctKeys(r)
    ensures forall region :: Get(r, region).Some? ==> Get(r, region).value != []
  {
    if lines == [] then []
    else
      var d, line := Grouped(lines[..|lines| - 1]), lines[|lines| - 1];
      SetKeepsDistinct(d, line.region, GetOr(d, line.region, []) + [Entry(line)]);
      Set(d, line.region, GetOr(d, line.region, []) + [Entry(line)])
  }

  /** `parse_aws_rds_limits`: the loop filling `limits_by_region` with
      `setdefault(region, []).append(...)`. */
  method ParseAwsRdsLimits(lines: seq<LimitLine>) returns (limitsByRegion: Dict<string, seq<LimitEntry>>)
    ensures limitsByRegion == Grouped(lines)
  {
    limitsByRegion := [];
    for i := 0 to |lines|
      invariant limitsByRegion == Grouped(lines[..i])
    {
      assert lines[..i + 1][..i] == lines[..i];
      var line := lines[i];
      var limit, amount := line.limit, line.amount;
      var format;
      if line.key == AllocatedStorage {
        limit := limit * StorageFactor;
        amount := amount * StorageFactor;
        format := BytesHumanReadable;
      } else {
        format := IntFormatter;
      }
      var regionList := GetOr(limitsByRegion, line.region, []);
      limitsByRegion := Set(limitsByRegion, line.region, regionList + [LimitEntry(line.key, line.title, limit, amount, format)]);
    }
    assert lines[..|lines|] == lines;
  }

  /** The entries of the lines of one region, in input order. */
  function InRegion(lines: seq<LimitLine>, region: string): (r: seq<LimitEntry>)
    ensures |r| <= |lines|
  {
    if lines == [] then []
    else InRegion(lines[..|lines| - 1], region) + if lines[|lines| - 1].region == region then [Entry(lines[|lines| - 1])] else []
  }

  /** A region is a key exactly when some line names it, and its list holds
      the entries of exactly its lines, in input order. */
  lemma {:induction false} RegionEntries(lines: seq<LimitLine>, region: string)
    ensures Get(Grouped(lines), region).Some? <==> exists i :: 0 <= i < |lines| && lines[i].region == region
    ensures GetOr(Grouped(lines), region, []) == InRegion(lines, region)
  {
    if lines != [] {
      var init, line := lines[..|lines| - 1], lines[|lines| - 1];
      var d := Grouped(init);
      RegionEntries(init, region);
      assert Get(Grouped(lines), region) == if region == line.region then Some(GetOr(d, region, []) + [Entry(line)]) else Get(d, region);
      if region != line.region {
        assert (exists i :: 0 <= i < |lines| && lines[i].region == region) ==> exists i :: 0 <= i < |init| && init[i].region == region;
      } else {
        assert lines[|lines| - 1].region == region;
      }
    }
  }

  /** The number of entries over all regions. */
  function Size(d: Dict<string, seq<LimitEntry>>): nat {
    if d == [] then 0 else |d[0].1| + Size(d[1..])
  }

  /** Appending to a region's list adds one entry overall. */
  lemma {:induction false} AppendAddsOne(d: Dict<string, seq<LimitEntry>>, region: string, e: LimitEntry)
    ensures Size(Set(d, region, GetOr(d, region, []) + [e])) == Size(d) + 1
  {
    if d != [] && d[0].0 != region {
      AppendAddsOne(d[1..], region, e);
      assert Set(d, region, GetOr(d, region, []) + [e]) == [d[0]] + Set(d[1..], region, GetOr(d[1..], region, []) + [e]);
      assert ([d[0]] + Set(d[1..], region, GetOr(d[1..], region, []) + [e]))[1..] == Set(d[1..], region, GetOr(d[1..], region, []) + [e]);
    }
  }

  /** No line is lost or doubled: the regions together hold one entry per line. */
  lemma {:induction false} EveryLineOnce(lines: seq<LimitLine>)
    ensures Size(Grouped(lines)) == |lines|
  {
    if lines != [] {
      var init, line := lines[..|lines| - 1], lines[|lines| - 1];
      EveryLineOnce(init);
      AppendAddsOne(Grouped(init), line.region, Entry(line));
    }
  }
}
