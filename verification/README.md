# Node renderer of the eru command line, modelled in Dafny

The `describe` package of the eru command line client turns records received
from the cluster core into what the user sees. This project models its node
renderer (`describe/node.go`), which handles three record kinds:

- **nodes** become a table with the columns Name, Endpoint, Status and Resources
  (plus Info in verbose mode). The Status cell holds a verdict (`UP` only for a
  node that is not bypassed and is available) followed by the two raw flags. The
  Resources cell holds four lines: CPU, memory, volume and storage, each as usage
  over capacity. The volume capacity is the sum of the node's per-pool
  capacities. That sum is taken in an `int64`, over a map whose iteration order
  the runtime does not fix;
- **node resources** first have every not-a-number utilisation replaced by 0.
  They then become a table with the six header columns Name, Cpu, Memory,
  Storage, Volume and Diffs, handed to the table as six cell lists, one per
  header column, each with one entry per record. The percentages are written as
  `%.2f%%` of the fraction times 100;
- **node status messages** become one log line each: error level when the
  message carries an error, info level otherwise.

JSON and YAML output modes hand the record list to an encoder instead. The mode
is an explicit input (`Describe.Mode`). The incoming record channel is a finite
sequence.

Files:

- `text.dfy` (module `Text`): `strings.Join` and its partner `Split`, with
  round-trip lemmas.
- `numbers.dfy` (module `Numbers`): `int64` wrap-around, the `float64` values
  the renderer can see (`NaN`, the infinities, real numbers), and the `%d`,
  `%.2f` and `%.2f%%` texts. The `%d` text reads back exactly, and the `%.2f`
  text of a real number reads back to within 0.005. The `%.2f%%` text is shown
  to end in '%' and to read "NaN%" exactly for not-a-number; it has no reader.
- `volume.dfy` (module `Volume`): the volume capacity loop over a map visited
  in an arbitrary order.
- `records.dfy` (module `Records`): the node, node resource and status message
  records, reduced to the fields the renderer reads.
- `describe_node.dfy` (module `Describe`): the renderer itself.
- `scenarios.dfy` (module `Scenarios`): worked examples on concrete records.

A table is recorded as its header plus, for every `AppendRows` call, the
column-major cell lists handed to it. Each such block is followed by a
separator line.

JSON and YAML output also receive sanitised resource records, because the
sanitiser runs before the mode switch (`describe/node.go:87-89`). So
`Describe.NodeResources` hands the sanitised records to the encoders too.

## Model

| member | source | states |
|---|---|---|
| Describe.StatusTextLines | describe/node.go:50-54 | The Status cell splits into exactly three lines. The first is "UP" exactly when the node is not bypassed and is available, and "DOWN" exactly otherwise. The second and third carry the bypass and availability flags behind their labels, each written as "true" or "false", and reading them back gives the node's flags. |
| Describe.ResourcesCellLines | describe/node.go:60-65 | Splitting the Resources cell at newlines gives back the four lines it was joined from, in order (no line contains a newline). |
| Describe.ResourceDenominators | describe/node.go:61-64 | Reading the number after the last '/' on each line gives the capacities: the CPU count, the memory capacity, the volume total and the storage capacity. |
| Describe.NodeColumns | describe/node.go:56-75 | A node's row has one single-cell column per header column (4, or 5 with Info). The Resources column is computed from the wrapped sum of all pool capacities, whatever order the pools are visited in. |
| Describe.DescribeNodes | describe/node.go:40-78 | The node table has the header matching `showInfo` and one block per node, in input order. Block i is node i's row, and its width equals the header's. |
| Describe.DispatchNodes | describe/node.go:17-38 | JSON and YAML receive the whole node list unchanged. The default mode receives the table of all nodes. |
| Describe.Nodes | describe/node.go:17-26 | JSON mode gets the JSON encoding of the unchanged node list, and YAML mode the YAML encoding. The default mode gets a table with the four-column header and one four-column row per node, in order. |
| Describe.NodesWithInfo | describe/node.go:29-38 | The same as `Nodes`, except that the table has the five-column header and rows that carry the node's info. |
| Volume.VolumeTotalIsMapSum | describe/node.go:56-59 | The `int64` loop over the pools, in any order that visits each pool once, yields the sum of the capacities wrapped to `int64`. That is the exact sum when it fits, and 0 for a node without pools. |
| Volume.LoopSumWraps | describe/node.go:56-59 | Wrapping after every addition gives the same result as wrapping the unbounded sum once. |
| Volume.SeqSumIsMapSum | describe/node.go:57-58 | Summing along any enumeration of the keys gives the order-free sum of the map's values. |
| Numbers.WrapAdd | describe/node.go:58 | `int64` addition with wrap-around agrees with wrapping the mathematical sum. |
| Numbers.ParseFormatInt | describe/node.go:61-64 | Reading back what `%d` wrote gives the integer that was written, negative ones included. |
| Numbers.FormatIntShape | describe/node.go:61-64 | `%d` writes only decimal digits, after a leading minus sign for a negative number, so the text contains neither a newline nor a '/'. |
| Numbers.FormatFixed2Accuracy | describe/node.go:61 | The `%.2f` text of a real number reads back to within 0.005 of that number. |
| Numbers.FormatFixed2Shape | describe/node.go:61 | `%.2f` writes one line. For a number it has at least four characters, with the decimal point third from the end. |
| Numbers.FormatPercentShape | describe/node.go:129-132 | A percentage is one line ending in '%'. It reads "NaN%" exactly when the value is not a number. |
| Numbers.Scale100 | describe/node.go:129 | Multiplying by 100 leaves not-a-number exactly the not-a-number values, and scales a real value by 100. |
| Describe.CheckNaNForResource | describe/node.go:101-114 | Each not-a-number utilisation becomes 0. Every other utilisation, the name and the diffs stay as they were. The result holds no not-a-number. |
| Describe.SanitizedIsFixedPoint | describe/node.go:101-114 | A record is left unchanged by the sanitiser exactly when it holds no not-a-number utilisation. |
| Describe.CheckNaNIdempotent | describe/node.go:101-114 | Sanitising twice is the same as sanitising once. |
| Describe.SanitizeAll | describe/node.go:87-89 | Every record is sanitised, keeping the number and order of records. No record of the result holds a not-a-number utilisation. |
| Describe.SanitizeAllFixedPoint | describe/node.go:87-89 | A record list is left unchanged by sanitising every record exactly when none of its records holds a not-a-number. Sanitising a list twice is the same as sanitising it once. |
| Describe.RowEntries | describe/node.go:127-134 | Entry i of a row built record by record is the cell of record i: one entry per record, in input order. |
| Describe.MetricRowEntries | describe/node.go:128-133 | Entry i of each metric row is record i's own cell for that metric. |
| Describe.MetricRows | describe/node.go:135 | The resource table has one row per header column, and each row has one entry per record. |
| Describe.NoNaNCells | describe/node.go:129-132 | When every record is sanitised, no Cpu, Memory, Storage or Volume cell reads "NaN%". |
| Describe.DescribeNodeResources | describe/node.go:116-141 | The resource table has the six-column header and a single block made of the six metric rows of the records. |
| Describe.NodeResources | describe/node.go:86-98 | JSON mode gets the JSON encoding and YAML mode the YAML encoding. Either encoding receives every record, sanitised, in order, and none holds a not-a-number. The default mode gets a table with the six-column header and the metric rows of the sanitised records. None of that table's percentage cells reads "NaN%". |
| Describe.Report | describe/node.go:157-162 | A message gives an error-level line exactly when its error text is non-empty, with the node name and error. Otherwise it gives an info-level line with the node, pod and liveness. |
| Describe.MessageShowsLevel | describe/node.go:159-161 | Only an error line's text starts "[WatchNodeStatus] Error", so the text alone tells the two levels apart. |
| Describe.DescribeNodeStatusMessage | describe/node.go:156-164 | There is one log line per message, in arrival order. Line i is an error line exactly when message i has an error. |
| Describe.NodeStatusMessage | describe/node.go:145-154 | JSON and YAML receive the message list unchanged. The default mode logs one line per message, in order. |
| Text.SplitJoin | describe/node.go:60-65 | Joining newline-free lines with newlines and splitting the result again gives the lines back. |
| Text.JoinSplit | describe/node.go:133 | Splitting any string at a separator and joining the pieces with that separator gives the string back. |
| Describe.DiffsCellLines | describe/node.go:133 | Splitting a Diffs cell at newlines gives back the record's diffs, when it has at least one diff and no diff holds a newline. |
| Scenarios.N1Status | describe/node.go:50-54 | A healthy node that is not bypassed shows "UP\nbypass false\navailable true". |
| Scenarios.N1Resources | describe/node.go:60-65 | A node with 1.5 CPUs used of four, 1024 of 4096 bytes of memory, no volume pools and 1000 bytes of storage shows "CPU: 1.50/4", "Mem: 1024/4096 bytes", "Vol: 0 / 0 bytes" and "Storage: 0 / 1000 bytes". |
| Scenarios.N1Row | describe/node.go:67-72 | That node's row holds its name, endpoint, "UP" status and Resources cell, with a volume total of 0 although the node has no pools. |
| Scenarios.NaNCpuShowsZero | describe/node.go:111-113 | A record whose CPU utilisation is not a number shows "0.00%" in the Cpu row after sanitising. |

## Left out

- Rendering the table (`toTableRows`, the go-pretty writer, its light style, its output to stdout) is not part of this model. The table is recorded as the cell blocks handed to it.
- The JSON and YAML encoders (`describeAsJSON`, `describeAsYAML`) and the environment-based mode detection (`isJSON`, `isYAML`) are not part of this model. The mode is an input, and an encoder's input is recorded instead of its text.
- The `stream` flag of `Nodes` and `NodesWithInfo` is not modelled, because `describeNodes` never reads it. The channel becomes a finite sequence.
- Describe.SanitizeAll: returns sanitised copies. The program sanitises each record through its pointer, so the caller's own records are changed too, and that side effect is not modelled.
- A nil record pointer makes the program panic when it reads the record. Records here are values, so that case does not arise.
- Numbers.Float has no negative zero, which `%.2f` prints as "-0.00". A zero utilisation always prints as "0.00" here.
- Describe.DiffsCellLines: the Diffs cell does not always give the diffs back. An empty diff list and a list holding one empty diff give the same empty cell, and a diff that contains a newline splits into several lines.
- Logging through logrus is modelled as the level, the fields and the message text of each line. Timestamps, formatting and the output sink are left out.
- Numbers.FormatFixed2: rounds the exact real value half-to-even. It does not model the binary representation of a `float64`, whose nearest double can round differently in the last place.
- Numbers.Scale100: multiplies exactly. It does not model the rounding of the `float64` product `x*100`.
- Fields of the RPC records that the renderer does not read are left out of the record types.
