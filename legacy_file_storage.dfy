/** The older CSV usage sink (modules/file_storage.py): the same file
    creation and write modes as the packaged one, but `read_usage` returns
    every line. */
module LegacyFileSink {
  import opened Common
  import opened EnergyRecord
  import opened FileSink

  class FileStorage {
    var storageMode: string
    var lines: seq<Row>

    /** Only a missing file is created, holding the header row. */
    constructor (existing: Option<seq<Row>>, storageMode: string)
      ensures this.storageMode == storageMode
      ensures lines == (if existing.Some? then existing.value else [HeaderRow()])
    {
      this.storageMode := storageMode;
      lines := if existing.Some? then existing.value else [HeaderRow()];
    }

    /** Append in "append" mode, otherwise overwrite the file with the row. */
    method WriteUsage(u: EnergyUsage)
      modifies this
      ensures storageMode == old(storageMode)
      ensures lines == AfterWrite(old(lines), storageMode, UsageRow(u))
    {
      if storageMode == "append" {
        lines := lines + [UsageRow(u)];
      } else {
        lines := [UsageRow(u)];
      }
    }

    /** `read_usage()`: every line, in file order. */
    method ReadUsage() returns (r: seq<Row>)
      ensures r == lines
      ensures r == LastLines(lines, 0)
    {
      r := lines;
    }

    /** `close()` does nothing. */
    method Close()
      ensures unchanged(this)
    {
    }
  }

  /** Writes to an existing file in append mode keep every earlier line,
      header included, and read back in the order written. */
  method AppendTwiceThenRead(existing: seq<Row>, u1: EnergyUsage, u2: EnergyUsage) returns (r: seq<Row>)
    ensures r == existing + [UsageRow(u1), UsageRow(u2)]
  {
    var fs := new FileStorage(Some(existing), "append");
    fs.WriteUsage(u1);
    fs.WriteUsage(u2);
    r := fs.ReadUsage();
  }
}
