/** The CSV usage sink (kasa_carbon/modules/file_storage.py). The file is
    its sequence of rows; a row is the list of values `csv.writer` is given,
    before quoting. */
module FileSink {
  import opened Common
  import opened Dicts
  import opened EnergyRecord

  type Row = seq<Value>

  /** The header row: `EnergyUsage.keys()`. */
  function HeaderRow(): (h: Row)
    ensures |h| == |UsageKeys()|
    ensures forall i :: 0 <= i < |h| ==> h[i] == VStr(UsageKeys()[i])
  {
    [VStr("device"), VStr("timestamp"), VStr("power_draw_watts"), VStr("avg_emitted_mgco2e"),
     VStr("grid_carbon_intensity_gco2perkwhr")]
  }

  /** The row `write_usage` writes: the values of the record's dict, which
      are its fields in column order. */
  function UsageRow(u: EnergyUsage): (row: Row)
    ensures |row| == |HeaderRow()|
    ensures row == [u.device, u.timestamp, u.powerDrawWatts, u.avgEmittedMgco2e, u.gridCarbonIntensity]
  {
    Values(GetDict(u))
  }

  /** The file after one write: append mode adds the row at the end,
      any other mode truncates the file to that row. */
  function AfterWrite(lines: seq<Row>, storageMode: string, row: Row): (r: seq<Row>)
    ensures storageMode == "append" ==> |r| == |lines| + 1 && r[..|lines|] == lines && r[|lines|] == row
    ensures storageMode != "append" ==> r == [row]
  {
    if storageMode == "append" then lines + [row] else [row]
  }

  /** `lines[-lastN:]`, with Python's slice rules: a positive count keeps
      the last `lastN` lines (all of them when there are fewer), zero keeps
      every line, and a negative count drops `-lastN` lines from the front. */
  function LastLines(lines: seq<Row>, lastN: int): (r: seq<Row>)
    ensures lastN > 0 ==> |r| == (if lastN < |lines| then lastN else |lines|)
    ensures lastN == 0 ==> r == lines
    ensures lastN < 0 ==> r == (if -lastN < |lines| then lines[-lastN..] else [])
    ensures r == lines[|lines| - |r|..]
  {
    if lastN <= 0 then
      (if -lastN < |lines| then lines[-lastN..] else [])
    else if lastN < |lines| then lines[|lines| - lastN..]
    else lines
  }

  /** After any write, reading one line gives the row just written. */
  lemma LastLineIsLastWrite(lines: seq<Row>, storageMode: string, row: Row)
    ensures LastLines(AfterWrite(lines, storageMode, row), 1) == [row]
  {
    var r := AfterWrite(lines, storageMode, row);
    assert r[|r| - 1] == row;
    assert r[|r| - 1..] == [r[|r| - 1]];
  }

  /** Reading at least as many lines as the file holds gives the whole file. */
  lemma LastLinesOfShortFile(lines: seq<Row>, lastN: int)
    requires lastN >= |lines|
    ensures LastLines(lines, lastN) == lines
  {
  }

  /** In append mode the lines read back after a write are the ones read
      before it, minus the oldest when the window is full, plus the new row. */
  lemma {:induction false} LastLinesAfterAppend(lines: seq<Row>, row: Row, lastN: int)
    requires lastN > 1
    ensures LastLines(AfterWrite(lines, "append", row), lastN) ==
            (if |lines| < lastN then lines else LastLines(lines, lastN - 1)) + [row]
  {
    var r := lines + [row];
    if |lines| >= lastN {
      assert r[|r| - lastN..] == lines[|lines| - (lastN - 1)..] + [row];
    }
  }

  class FileStorage {
    var storageMode: string
    /** The rows of the file at `file_path`. */
    var lines: seq<Row>

    /** `FileStorage(file_path, storage_mode)`: `existing` is the file's
        content when it exists; only a missing file is created, with the header row. */
    constructor (existing: Option<seq<Row>>, storageMode: string)
      ensures this.storageMode == storageMode
      ensures lines == (if existing.Some? then existing.value else [HeaderRow()])
    {
      this.storageMode := storageMode;
      lines := if existing.Some? then existing.value else [HeaderRow()];
    }

    /** `write_usage(u)`: mode 'a' when the storage mode is "append", else 'w'. */
    method WriteUsage(u: EnergyUsage)
      modifies this
      ensures storageMode == old(storageMode)
      ensures lines == AfterWrite(old(lines), storageMode, UsageRow(u))
    {
      var row := UsageRow(u);
      if storageMode == "append" {
        lines := lines + [row];
      } else {
        lines := [row];
      }
    }

    /** `read_usage(last_n=10)`; `columns` is ignored by the source. */
    method ReadUsage(lastN: int := DefaultLastN) returns (r: seq<Row>)
      ensures r == LastLines(lines, lastN)
    {
      if lastN <= 0 {
        r := if -lastN < |lines| then lines[-lastN..] else [];
      } else if lastN < |lines| {
        r := lines[|lines| - lastN..];
      } else {
        r := lines;
      }
    }

    /** `close()` does nothing. */
    method Close()
      ensures unchanged(this)
    {
    }
  }

  /** `read_usage()`'s default count. */
  const DefaultLastN: int := 10

  /** A new file in append mode, after one write, reads back as the header and that row. */
  method FreshAppendThenRead(u: EnergyUsage) returns (r: seq<Row>)
    ensures r == [HeaderRow(), UsageRow(u)]
  {
    var fs := new FileStorage(None, "append");
    fs.WriteUsage(u);
    r := fs.ReadUsage();
  }

  /** In overwrite mode the header is lost at the first write. */
  method FreshOverwriteThenRead(u: EnergyUsage, mode: string) returns (r: seq<Row>)
    requires mode != "append"
    ensures r == [UsageRow(u)]
  {
    var fs := new FileStorage(None, mode);
    fs.WriteUsage(u);
    r := fs.ReadUsage();
  }
}
