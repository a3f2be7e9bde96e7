/**
 Worked examples of the renderer's behaviour on concrete records.
 */
module Scenarios {
  import opened Numbers
  import opened Records
  import opened Describe
  import Text
  import Volume

  /** A healthy node `n1` with four CPUs and no volume pools. */
  const N1: Node := Node("n1", "10.0.0.1:2379", false, true, Num(1.5),
    map["0" := 100, "1" := 100, "2" := 100, "3" := 100],
    1024, 4096, 0, map[], 0, 1000, "")

  lemma N1Status()
    ensures StatusText(N1.bypass, N1.available) == "UP\nbypass false\navailable true"
  {
  }

  lemma N1CpuCount()
    ensures |N1.initCpu| == 4
  {
    assert N1.initCpu.Keys == {"0", "1", "2", "3"};
  }

  lemma OneFifty()
    ensures FormatFixed2(Num(1.5)) == "1.50"
  {
    assert Hundredths(1.5) == 150;
    assert Cents(150) == "50";
  }

  lemma CpuLine()
    ensures "CPU: " + FormatFixed2(N1.cpuUsed) + "/" + FormatInt(|N1.initCpu|) == "CPU: 1.50/4"
  {
    N1CpuCount();
    OneFifty();
  }

  lemma Print1024()
    ensures FormatInt(1024) == "1024"
  {
    assert Digits(10) == "10";
    assert Digits(102) == "102";
  }

  lemma Print4096()
    ensures FormatInt(4096) == "4096"
  {
    assert Digits(40) == "40";
    assert Digits(409) == "409";
  }

  lemma MemLine()
    ensures "Mem: " + FormatInt(N1.memoryUsed) + "/" + FormatInt(N1.initMemory) + " bytes" == "Mem: 1024/4096 bytes"
  {
    Print1024();
    Print4096();
  }

  lemma VolLine()
    ensures "Vol: " + FormatInt(N1.volumeUsed) + " / " + FormatInt(0) + " bytes" == "Vol: 0 / 0 bytes"
  {
  }

  lemma StorageLine()
    ensures "Storage: " + FormatInt(N1.storageUsed) + " / " + FormatInt(N1.initStorage) + " bytes"
      == "Storage: 0 / 1000 bytes"
  {
    assert Digits(100) == "100";
  }

  /** The example node's Resources cell holds these four lines. */
  lemma N1Resources()
    ensures Text.Split(ResourcesCell(N1, 0), '\n') ==
      ["CPU: 1.50/4", "Mem: 1024/4096 bytes", "Vol: 0 / 0 bytes", "Storage: 0 / 1000 bytes"]
  {
    ResourcesCellLines(N1, 0);
    CpuLine();
    MemLine();
    VolLine();
    StorageLine();
  }

  /** The example node `n1` is shown as UP, and its volume total is 0 although it has no pools. */
  lemma N1Row()
    ensures var cols := NodeColumns(N1, [], false);
      && cols[0] == ["n1"] && cols[1] == ["10.0.0.1:2379"]
      && cols[2] == ["UP\nbypass false\navailable true"]
      && cols[3] == [ResourcesCell(N1, 0)]
  {
    assert Volume.MapSum(N1.initVolume) == 0;
    N1Status();
  }

  /** A not-a-number CPU utilisation is shown as 0.00% in the table. */
  lemma NaNCpuShowsZero(res: NodeResource)
    requires res.cpuPercent.NaN?
    ensures FormatPercent(CheckNaNForResource(res).cpuPercent) == "0.00%"
  {
    assert Hundredths(0.0) == 0;
  }
}
