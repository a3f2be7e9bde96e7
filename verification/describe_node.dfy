/**
 The node renderer: turns node, resource and status-stream records into what the
 command line shows. The output mode is an explicit input; JSON and YAML hand the
 record list to an encoder, the default mode builds a table (or log lines for the
 status stream).

 A table is recorded as its header and, for every `AppendRows` call, the
 column-major cell lists handed to it (`blocks`); each block is followed by a
 separator line. Laying the cells out in a bordered grid is the table library's
 business and is not modelled.
 */
module Describe {
  import opened Text
  import opened Numbers
  import opened Volume
  import opened Records

  /** The output format, chosen once per invocation from the process configuration. */
  datatype Mode = JSON | YAML | Table

  /** The encoder an encoded view went through. Kept apart from `Mode` so that an
      encoded view can never claim the table mode. */
  datatype Encoding = Json | Yaml

  datatype Grid = Grid(header: seq<string>, blocks: seq<seq<seq<string>>>)

  /** One status-stream report: an error-level or an info-level log line. */
  datatype LogLine =
    | ErrorLine(nodename: string, error: string)
    | InfoLine(nodename: string, podname: string, alive: bool)

  /** What one invocation emits: an encoded record list, a table, or log lines. */
  datatype View<T> =
    | Encoded(encoding: Encoding, records: seq<T>)
    | Tabular(grid: Grid)
    | Logged(lines: seq<LogLine>)

  /** `%v` of a boolean. */
  function BoolText(b: bool): string {
    if b then "true" else "false"
  }

  /** Recovers a flag from its `%v` text (meaningful for "true" and "false" only). */
  function ReadBool(s: string): bool {
    s == "true"
  }

  // ---------------------------------------------------------------------------
  // Nodes

  /** The Status cell: the verdict, then the raw bypass and availability flags. */
  function StatusText(bypass: bool, available: bool): string {
    var verdict := if !bypass && available then "UP" else "DOWN";
    var b := "bypass " + BoolText(bypass);
    var a := "available " + BoolText(available);
    verdict + "\n" + b + "\n" + a
  }

  /** The Status cell has three lines: "UP" exactly for a node that is not bypassed and is
      available ("DOWN" otherwise), then each flag behind its label, readable back. */
  lemma StatusTextLines(bypass: bool, available: bool)
    ensures var lines := Split(StatusText(bypass, available), '\n');
      && |lines| == 3
      && (lines[0] == "UP" <==> !bypass && available)
      && (lines[0] == "DOWN" <==> bypass || !available)
      && |lines[1]| >= 7 && lines[1][..7] == "bypass "
      && lines[1][7..] in {"true", "false"} && ReadBool(lines[1][7..]) == bypass
      && |lines[2]| >= 10 && lines[2][..10] == "available "
      && lines[2][10..] in {"true", "false"} && ReadBool(lines[2][10..]) == available
  {
    var verdict := if !bypass && available then "UP" else "DOWN";
    var b := "bypass " + BoolText(bypass);
    var a := "available " + BoolText(available);
    assert b[7..] == BoolText(bypass) && a[10..] == BoolText(available);
    assert StatusText(bypass, available) == verdict + "\n" + b + "\n" + a;
    SplitThree(verdict, b, a, '\n');
  }

  /** The four lines of the Resources cell: CPU, memory, volume and storage usage over capacity. */
  function ResourceLines(n: Node, volumeTotal: int): seq<string> {
    [
      "CPU: " + FormatFixed2(n.cpuUsed) + "/" + FormatInt(|n.initCpu|),
      "Mem: " + FormatInt(n.memoryUsed) + "/" + FormatInt(n.initMemory) + " bytes",
      "Vol: " + FormatInt(n.volumeUsed) + " / " + FormatInt(volumeTotal) + " bytes",
      "Storage: " + FormatInt(n.storageUsed) + " / " + FormatInt(n.initStorage) + " bytes"
    ]
  }

  /** The Resources cell for a node whose volume pools add up to `volumeTotal`. */
  function ResourcesCell(n: Node, volumeTotal: int): string {
    Join(ResourceLines(n, volumeTotal), "\n")
  }

  /** Each line of the Resources cell survives in it as a line of its own, in order. */
  lemma ResourcesCellLines(n: Node, volumeTotal: int)
    ensures Split(ResourcesCell(n, volumeTotal), '\n') == ResourceLines(n, volumeTotal)
  {
    var lines := ResourceLines(n, volumeTotal);
    FormatFixed2Shape(n.cpuUsed);
    FormatIntShape(|n.initCpu|);
    FormatIntShape(n.memoryUsed);
    FormatIntShape(n.initMemory);
    FormatIntShape(n.volumeUsed);
    FormatIntShape(volumeTotal);
    FormatIntShape(n.storageUsed);
    FormatIntShape(n.initStorage);
    SplitJoin(lines, '\n');
  }

  /** What a reader takes as the capacity on a Resources line: the number after
      the last '/', without the blank before it and the " bytes" unit after it. */
  function Denominator(line: string): int {
    var t := AfterLast(line, '/');
    var t1 := if |t| > 0 && t[0] == ' ' then t[1..] else t;
    var t2 := if |t1| >= 6 && t1[|t1| - 6..] == " bytes" then t1[..|t1| - 6] else t1;
    ParseInt(t2)
  }

  /** The number after the last '/' of `tail`, once its leading blank and " bytes" unit are dropped. */
  lemma DenominatorOfTail(prefix: string, tail: string, k: int)
    requires tail in {FormatInt(k), FormatInt(k) + " bytes", " " + FormatInt(k) + " bytes"}
    ensures Denominator(prefix + ['/'] + tail) == k
  {
    var digits := FormatInt(k);
    FormatIntShape(k);
    assert '/' !in tail && '/' !in digits by {
      assert forall i :: 0 <= i < |digits| ==> digits[i] != '/';
    }
    AfterLastOf(prefix, '/', tail);
    var t1 := if |tail| > 0 && tail[0] == ' ' then tail[1..] else tail;
    if tail == digits {
      assert t1 == digits;
      if |t1| >= 6 {
        assert t1[|t1| - 6..][0] == digits[|digits| - 6];
      }
    } else {
      assert t1 == digits + " bytes";
      assert t1[|t1| - 6..] == " bytes" && t1[..|t1| - 6] == digits;
    }
    ParseFormatInt(k);
  }

  lemma SpacedSlash(p: string, y: string)
    ensures p + " / " + y + " bytes" == (p + " ") + ['/'] + (" " + y + " bytes")
  {
  }

  /** Reading the capacities back from the Resources cell: the CPU count, the memory
      capacity, the volume total it was given and the storage capacity, in that order. */
  lemma ResourceDenominators(n: Node, volumeTotal: int)
    ensures var lines := Split(ResourcesCell(n, volumeTotal), '\n');
      && |lines| == 4
      && Denominator(lines[0]) == |n.initCpu|
      && Denominator(lines[1]) == n.initMemory
      && Denominator(lines[2]) == volumeTotal
      && Denominator(lines[3]) == n.initStorage
  {
    var lines := Split(ResourcesCell(n, volumeTotal), '\n');
    ResourcesCellLines(n, volumeTotal);
    assert Denominator(lines[0]) == |n.initCpu| by {
      var prefix := "CPU: " + FormatFixed2(n.cpuUsed);
      assert lines[0] == prefix + ['/'] + FormatInt(|n.initCpu|);
      DenominatorOfTail(prefix, FormatInt(|n.initCpu|), |n.initCpu|);
    }
    assert Denominator(lines[1]) == n.initMemory by {
      var prefix := "Mem: " + FormatInt(n.memoryUsed);
      var tail := FormatInt(n.initMemory) + " bytes";
      assert lines[1] == prefix + ['/'] + tail;
      DenominatorOfTail(prefix, tail, n.initMemory);
    }
    assert Denominator(lines[2]) == volumeTotal by {
      var prefix := "Vol: " + FormatInt(n.volumeUsed) + " ";
      var tail := " " + FormatInt(volumeTotal) + " bytes";
      SpacedSlash("Vol: " + FormatInt(n.volumeUsed), FormatInt(volumeTotal));
      DenominatorOfTail(prefix, tail, volumeTotal);
    }
    assert Denominator(lines[3]) == n.initStorage by {
      var prefix := "Storage: " + FormatInt(n.storageUsed) + " ";
      var tail := " " + FormatInt(n.initStorage) + " bytes";
      SpacedSlash("Storage: " + FormatInt(n.storageUsed), FormatInt(n.initStorage));
      DenominatorOfTail(prefix, tail, n.initStorage);
    }
  }

  /** Header of the node table; the Info column only in verbose mode. */
  function NodeHeader(showInfo: bool): seq<string> {
    ["Name", "Endpoint", "Status", "Resources"] + (if showInfo then ["Info"] else [])
  }

  /** The cells of one node's row, one single-cell list per column. `order` is the
      order in which the runtime happens to visit the node's volume pools. */
  function NodeColumns(n: Node, order: seq<string>, showInfo: bool): (cols: seq<seq<string>>)
    requires Enumerates(order, n.initVolume)
    ensures |cols| == |NodeHeader(showInfo)|
    ensures cols[..4] == [[n.name], [n.endpoint], [StatusText(n.bypass, n.available)],
                          [ResourcesCell(n, Wrap64(MapSum(n.initVolume)))]]
    ensures showInfo ==> cols[4..] == [[n.info]]
  {
    var totalVolumeCap := LoopSum(n.initVolume, order);
    VolumeTotalIsMapSum(n.initVolume, order);
    var cols := [[n.name], [n.endpoint], [StatusText(n.bypass, n.available)], [ResourcesCell(n, totalVolumeCap)]];
    if showInfo then cols + [[n.info]] else cols
  }

  /** Every node comes with an enumeration of its volume pools. */
  predicate PoolOrders(nodes: seq<Node>, orders: seq<seq<string>>) {
    |orders| == |nodes| && forall i :: 0 <= i < |nodes| ==> Enumerates(orders[i], nodes[i].initVolume)
  }

  /** The node table: the header, then one block per node in input order. */
  method DescribeNodes(nodes: seq<Node>, orders: seq<seq<string>>, showInfo: bool) returns (g: Grid)
    requires PoolOrders(nodes, orders)
    ensures g.header == NodeHeader(showInfo)
    ensures |g.blocks| == |nodes|
    ensures forall i :: 0 <= i < |nodes| ==> g.blocks[i] == NodeColumns(nodes[i], orders[i], showInfo)
    ensures forall i :: 0 <= i < |nodes| ==> |g.blocks[i]| == |g.header|
  {
    var blocks: seq<seq<seq<string>>> := [];
    for i := 0 to |nodes|
      invariant |blocks| == i
      invariant forall k :: 0 <= k < i ==> blocks[k] == NodeColumns(nodes[k], orders[k], showInfo)
    {
      var cols := NodeColumns(nodes[i], orders[i], showInfo);
      blocks := blocks + [cols];
    }
    g := Grid(NodeHeader(showInfo), blocks);
  }

  /** Shared dispatch of `Nodes` and `NodesWithInfo`. */
  method DispatchNodes(nodes: seq<Node>, orders: seq<seq<string>>, mode: Mode, showInfo: bool)
    returns (v: View<Node>)
    requires PoolOrders(nodes, orders)
    ensures mode == JSON ==> v == Encoded(Json, nodes)
    ensures mode == YAML ==> v == Encoded(Yaml, nodes)
    ensures mode == Table ==>
      && v.Tabular? && v.grid.header == NodeHeader(showInfo)
      && |v.grid.blocks| == |nodes|
      && forall i :: 0 <= i < |nodes| ==> v.grid.blocks[i] == NodeColumns(nodes[i], orders[i], showInfo)
  {
    match mode
    case JSON => v := Encoded(Json, nodes);
    case YAML => v := Encoded(Yaml, nodes);
    case Table =>
      var g := DescribeNodes(nodes, orders, showInfo);
      v := Tabular(g);
  }

  /** Nodes without their info: structured modes get the raw records, the table has four columns. */
  method Nodes(nodes: seq<Node>, orders: seq<seq<string>>, mode: Mode) returns (v: View<Node>)
    requires PoolOrders(nodes, orders)
    ensures mode == JSON ==> v == Encoded(Json, nodes)
    ensures mode == YAML ==> v == Encoded(Yaml, nodes)
    ensures mode == Table ==>
      && v.Tabular? && v.grid.header == ["Name", "Endpoint", "Status", "Resources"]
      && |v.grid.blocks| == |nodes|
      && forall i :: 0 <= i < |nodes| ==> v.grid.blocks[i] == NodeColumns(nodes[i], orders[i], false)
  {
    v := DispatchNodes(nodes, orders, mode, false);
  }

  /** Nodes with their info: as `Nodes`, but the table has a fifth column holding `info`. */
  method NodesWithInfo(nodes: seq<Node>, orders: seq<seq<string>>, mode: Mode) returns (v: View<Node>)
    requires PoolOrders(nodes, orders)
    ensures mode == JSON ==> v == Encoded(Json, nodes)
    ensures mode == YAML ==> v == Encoded(Yaml, nodes)
    ensures mode == Table ==>
      && v.Tabular? && v.grid.header == ["Name", "Endpoint", "Status", "Resources", "Info"]
      && |v.grid.blocks| == |nodes|
      && forall i :: 0 <= i < |nodes| ==> v.grid.blocks[i] == NodeColumns(nodes[i], orders[i], true)
  {
    v := DispatchNodes(nodes, orders, mode, true);
  }

  // ---------------------------------------------------------------------------
  // Node resources

  predicate Sanitized(r: NodeResource) {
    !r.cpuPercent.NaN? && !r.memoryPercent.NaN? && !r.storagePercent.NaN? && !r.volumePercent.NaN?
  }

  function ZeroIfNaN(x: Float): Float {
    if x.NaN? then Num(0.0) else x
  }

  /** Replaces every not-a-number utilisation by 0 and leaves everything else alone. */
  function CheckNaNForResource(res: NodeResource): (r: NodeResource)
    ensures Sanitized(r)
    ensures r.name == res.name && r.diffs == res.diffs
    ensures res.cpuPercent.NaN? ==> r.cpuPercent == Num(0.0)
    ensures res.memoryPercent.NaN? ==> r.memoryPercent == Num(0.0)
    ensures res.storagePercent.NaN? ==> r.storagePercent == Num(0.0)
    ensures res.volumePercent.NaN? ==> r.volumePercent == Num(0.0)
    ensures !res.cpuPercent.NaN? ==> r.cpuPercent == res.cpuPercent
    ensures !res.memoryPercent.NaN? ==> r.memoryPercent == res.memoryPercent
    ensures !res.storagePercent.NaN? ==> r.storagePercent == res.storagePercent
    ensures !res.volumePercent.NaN? ==> r.volumePercent == res.volumePercent
  {
    res.(volumePercent := ZeroIfNaN(res.volumePercent),
         memoryPercent := ZeroIfNaN(res.memoryPercent),
         storagePercent := ZeroIfNaN(res.storagePercent),
         cpuPercent := ZeroIfNaN(res.cpuPercent))
  }

  /** A record without not-a-number values is a fixed point of the sanitiser. */
  lemma SanitizedIsFixedPoint(res: NodeResource)
    ensures Sanitized(res) <==> CheckNaNForResource(res) == res
  {
  }

  /** Sanitising twice is sanitising once. */
  lemma CheckNaNIdempotent(res: NodeResource)
    ensures CheckNaNForResource(CheckNaNForResource(res)) == CheckNaNForResource(res)
  {
    SanitizedIsFixedPoint(CheckNaNForResource(res));
  }

  /** Every record of `rs` is free of not-a-number utilisations. */
  predicate AllSanitized(rs: seq<NodeResource>) {
    forall i :: 0 <= i < |rs| ==> Sanitized(rs[i])
  }

  /** The sanitiser applied to every record, keeping their number and order. */
  function SanitizeAll(resources: seq<NodeResource>): (out: seq<NodeResource>)
    ensures |out| == |resources|
    ensures AllSanitized(out)
    ensures forall i :: 0 <= i < |out| ==> out[i] == CheckNaNForResource(resources[i])
  {
    seq(|resources|, i requires 0 <= i < |resources| => CheckNaNForResource(resources[i]))
  }

  /** A list is left unchanged by the sanitiser exactly when it is already sanitised;
      so sanitising a list twice is sanitising it once. */
  lemma SanitizeAllFixedPoint(rs: seq<NodeResource>)
    ensures AllSanitized(rs) <==> SanitizeAll(rs) == rs
    ensures SanitizeAll(SanitizeAll(rs)) == SanitizeAll(rs)
  {
    if AllSanitized(rs) {
      forall i | 0 <= i < |rs|
        ensures SanitizeAll(rs)[i] == rs[i]
      {
        SanitizedIsFixedPoint(rs[i]);
      }
    }
    var once := SanitizeAll(rs);
    forall i | 0 <= i < |once|
      ensures SanitizeAll(once)[i] == once[i]
    {
      SanitizedIsFixedPoint(once[i]);
    }
  }

  /** The rows of the resource table, in header order. */
  datatype Metric = NameOf | CpuOf | MemoryOf | StorageOf | VolumeOf | DiffsOf

  const ResourceHeader: seq<string> := ["Name", "Cpu", "Memory", "Storage", "Volume", "Diffs"]

  /** The text record `r` contributes to the row of metric `m`. */
  function Cell(r: NodeResource, m: Metric): string {
    match m
    case NameOf => r.name
    case CpuOf => FormatPercent(r.cpuPercent)
    case MemoryOf => FormatPercent(r.memoryPercent)
    case StorageOf => FormatPercent(r.storagePercent)
    case VolumeOf => FormatPercent(r.volumePercent)
    case DiffsOf => Join(r.diffs, "\n")
  }

  /** A Diffs cell gives back the record's diffs when split at newlines, provided
      there is at least one diff and none holds a newline of its own. */
  lemma DiffsCellLines(r: NodeResource)
    requires |r.diffs| >= 1
    requires forall i :: 0 <= i < |r.diffs| ==> '\n' !in r.diffs[i]
    ensures Split(Cell(r, DiffsOf), '\n') == r.diffs
  {
    SplitJoin(r.diffs, '\n');
  }

  /** The cells `cell` gives for the records of `rs`, in order. */
  function Row<T>(rs: seq<T>, cell: T -> string): (row: seq<string>)
    ensures |row| == |rs|
    decreases |rs|
  {
    if |rs| == 0 then [] else Row(rs[..|rs| - 1], cell) + [cell(rs[|rs| - 1])]
  }

  /** Entry `i` of a row is derived from record `i` alone: one column per record, in input order. */
  lemma {:induction false} RowEntries<T>(rs: seq<T>, cell: T -> string)
    ensures forall i :: 0 <= i < |rs| ==> Row(rs, cell)[i] == cell(rs[i])
    decreases |rs|
  {
    if |rs| > 0 {
      RowEntries(rs[..|rs| - 1], cell);
    }
  }

  /** One row of the resource table: the cells of every record for metric `m`. */
  function MetricRow(rs: seq<NodeResource>, m: Metric): (row: seq<string>)
    ensures |row| == |rs|
  {
    Row(rs, r => Cell(r, m))
  }

  /** Entry `i` of the row of metric `m` is the cell of record `i`. */
  lemma MetricRowEntries(rs: seq<NodeResource>, m: Metric)
    ensures forall i :: 0 <= i < |rs| ==> MetricRow(rs, m)[i] == Cell(rs[i], m)
  {
    RowEntries(rs, r => Cell(r, m));
  }

  /** The six rows of the resource table built from `resources`, in header order. */
  function MetricRows(rs: seq<NodeResource>): (rows: seq<seq<string>>)
    ensures |rows| == |ResourceHeader|
    ensures forall j :: 0 <= j < |rows| ==> |rows[j]| == |rs|
  {
    [MetricRow(rs, NameOf), MetricRow(rs, CpuOf), MetricRow(rs, MemoryOf),
     MetricRow(rs, StorageOf), MetricRow(rs, VolumeOf), MetricRow(rs, DiffsOf)]
  }

  /** No percentage cell (rows 1 to 4) of a resource table reads "NaN%". */
  predicate NoNaNShown(rows: seq<seq<string>>) {
    forall j, i :: 1 <= j <= 4 && j < |rows| && 0 <= i < |rows[j]| ==> rows[j][i] != "NaN%"
  }

  /** The table shows "NaN%" only for a record holding a not-a-number utilisation;
      so a table of sanitised records shows it nowhere. */
  lemma NoNaNCells(rs: seq<NodeResource>)
    requires AllSanitized(rs)
    ensures NoNaNShown(MetricRows(rs))
  {
    MetricRowEntries(rs, CpuOf);
    MetricRowEntries(rs, MemoryOf);
    MetricRowEntries(rs, StorageOf);
    MetricRowEntries(rs, VolumeOf);
    forall i | 0 <= i < |rs|
      ensures MetricRow(rs, CpuOf)[i] != "NaN%" && MetricRow(rs, MemoryOf)[i] != "NaN%"
      ensures MetricRow(rs, StorageOf)[i] != "NaN%" && MetricRow(rs, VolumeOf)[i] != "NaN%"
    {
      FormatPercentShape(rs[i].cpuPercent);
      FormatPercentShape(rs[i].memoryPercent);
      FormatPercentShape(rs[i].storagePercent);
      FormatPercentShape(rs[i].volumePercent);
    }
  }

  /** The resource table: one block of six rows with an entry per record. */
  method DescribeNodeResources(resources: seq<NodeResource>) returns (g: Grid)
    ensures g.header == ResourceHeader
    ensures g.blocks == [MetricRows(resources)]
  {
    var nodeRow: seq<string> := [];
    var cpuRow: seq<string> := [];
    var memoryRow: seq<string> := [];
    var storageRow: seq<string> := [];
    var volumeRow: seq<string> := [];
    var diffsRow: seq<string> := [];
    for i := 0 to |resources|
      invariant nodeRow == MetricRow(resources[..i], NameOf)
      invariant cpuRow == MetricRow(resources[..i], CpuOf)
      invariant memoryRow == MetricRow(resources[..i], MemoryOf)
      invariant storageRow == MetricRow(resources[..i], StorageOf)
      invariant volumeRow == MetricRow(resources[..i], VolumeOf)
      invariant diffsRow == MetricRow(resources[..i], DiffsOf)
    {
      var resource := resources[i];
      assert resources[..i + 1][..i] == resources[..i];
      nodeRow := nodeRow + [resource.name];
      cpuRow := cpuRow + [FormatPercent(resource.cpuPercent)];
      memoryRow := memoryRow + [FormatPercent(resource.memoryPercent)];
      storageRow := storageRow + [FormatPercent(resource.storagePercent)];
      volumeRow := volumeRow + [FormatPercent(resource.volumePercent)];
      diffsRow := diffsRow + [Join(resource.diffs, "\n")];
    }
    assert resources[..|resources|] == resources;
    var rows := [nodeRow, cpuRow, memoryRow, storageRow, volumeRow, diffsRow];
    g := Grid(ResourceHeader, [rows]);
  }

  /** Sanitises every record, then dispatches: whichever mode is chosen receives
      the whole sanitised list. */
  method NodeResources(resources: seq<NodeResource>, mode: Mode) returns (v: View<NodeResource>)
    ensures mode == JSON ==> v.Encoded? && v.encoding == Json
    ensures mode == YAML ==> v.Encoded? && v.encoding == Yaml
    ensures v.Encoded? ==>
      && |v.records| == |resources|
      && forall i :: 0 <= i < |resources| ==> v.records[i] == CheckNaNForResource(resources[i])
    ensures v.Encoded? ==> forall i :: 0 <= i < |v.records| ==> Sanitized(v.records[i])
    ensures mode == Table ==>
      && v.Tabular? && v.grid.header == ResourceHeader
      && v.grid.blocks == [MetricRows(SanitizeAll(resources))]
      && NoNaNShown(v.grid.blocks[0])
  {
    var clean := SanitizeAll(resources);
    NoNaNCells(clean);
    match mode
    case JSON => v := Encoded(Json, clean);
    case YAML => v := Encoded(Yaml, clean);
    case Table =>
      var g := DescribeNodeResources(clean);
      v := Tabular(g);
  }

  // ---------------------------------------------------------------------------
  // Node status stream

  /** How one status message is reported: an error line when it carries an error, else an info line. */
  function Report(m: NodeStatusStreamMessage): (l: LogLine)
    ensures l.ErrorLine? <==> m.error != ""
    ensures l.nodename == m.nodename
    ensures l.ErrorLine? ==> l.error == m.error
    ensures l.InfoLine? ==> l.podname == m.podname && l.alive == m.alive
  {
    if m.error != "" then ErrorLine(m.nodename, m.error)
    else InfoLine(m.nodename, m.podname, m.alive)
  }

  /** The text logged for a report. */
  function Message(l: LogLine): string {
    match l
    case ErrorLine(node, err) =>
      "[WatchNodeStatus] Error when get status for node " + node + ": " + err
    case InfoLine(node, pod, alive) =>
      "[WatchNodeStatus] Node " + node + " on pod " + pod + ", alive: " + BoolText(alive)
  }

  /** The text alone tells the two levels apart: only an error report starts "[WatchNodeStatus] Error". */
  lemma MessageShowsLevel(l: LogLine)
    ensures |Message(l)| >= 23
    ensures Message(l)[..23] == "[WatchNodeStatus] Error" <==> l.ErrorLine?
  {
    var m := Message(l);
    if l.ErrorLine? {
      assert m[..23] == "[WatchNodeStatus] Error";
    } else {
      assert m[18] == 'N';
    }
  }

  /** One report per message, in arrival order. */
  method DescribeNodeStatusMessage(ms: seq<NodeStatusStreamMessage>) returns (lines: seq<LogLine>)
    ensures |lines| == |ms|
    ensures forall i :: 0 <= i < |ms| ==> (lines[i].ErrorLine? <==> ms[i].error != "")
    ensures forall i :: 0 <= i < |ms| ==> lines[i] == Report(ms[i])
  {
    lines := [];
    for i := 0 to |ms|
      invariant |lines| == i
      invariant forall k :: 0 <= k < i ==> lines[k] == Report(ms[k])
    {
      lines := lines + [Report(ms[i])];
    }
  }

  /** Status messages: structured modes get the raw list, the default mode logs one line each. */
  method NodeStatusMessage(ms: seq<NodeStatusStreamMessage>, mode: Mode)
    returns (v: View<NodeStatusStreamMessage>)
    ensures mode == JSON ==> v == Encoded(Json, ms)
    ensures mode == YAML ==> v == Encoded(Yaml, ms)
    ensures mode == Table ==>
      && v.Logged? && |v.lines| == |ms|
      && forall i :: 0 <= i < |ms| ==> v.lines[i] == Report(ms[i])
  {
    match mode
    case JSON => v := Encoded(Json, ms);
    case YAML => v := Encoded(Yaml, ms);
    case Table =>
      var lines := DescribeNodeStatusMessage(ms);
      v := Logged(lines);
  }
}
