/** The relational usage sink (kasa_carbon/modules/database.py): the SQL
    text it generates and the life cycle of its connection. The server is
    outside the model; what it answers is given to each call. */
module Database {
  import opened Common
  import opened Text
  import opened Dicts
  import opened EnergyRecord

  /** `read_usage`'s default row count. */
  const DefaultLastN: int := 10

  /** `['$' + str(i) for i in range(1, n + 1)]`. */
  function Placeholders(n: nat): (ps: seq<string>)
    ensures |ps| == n
    ensures forall i :: 0 <= i < n ==> ps[i] == "$" + NatToString(i + 1)
  {
    if n == 0 then [] else Placeholders(n - 1) + ["$" + NatToString(n)]
  }

  /** The INSERT statement for the given column names: one placeholder per column. */
  function InsertSql(columns: seq<string>): string {
    "INSERT INTO energy_usage (" + Join(", ", columns) + ") VALUES (" + Join(", ", Placeholders(|columns|)) + ")"
  }

  /** `_generate_insert_sql_query`: the columns are the keys of the record's
      dict, in order, so they are `EnergyUsage.keys()` whatever the record. */
  function GenerateInsertSqlQuery(u: EnergyUsage): (q: string)
    ensures q == InsertSql(UsageKeys())
  {
    InsertSql(Keys(GetDict(u)))
  }

  /** The `columns` argument of `read_usage`: a text (`"*"` by default) or a list of names. */
  datatype Columns = ColumnText(s: string) | ColumnList(names: seq<string>)

  /** The one-character texts of `s`: what iterating over a Python str yields. */
  function Chars(s: string): (cs: seq<string>)
    ensures |cs| == |s|
    ensures forall i :: 0 <= i < |s| ==> cs[i] == [s[i]]
  {
    if |s| == 0 then [] else [[s[0]]] + Chars(s[1..])
  }

  /** `"*"` verbatim, otherwise `', '.join(columns)`; a text other than `"*"`
      is joined character by character, as Python iterates it. */
  function ColumnsText(columns: Columns): string {
    match columns
    case ColumnText(s) => if s == "*" then "*" else Join(", ", Chars(s))
    case ColumnList(names) => Join(", ", names)
  }

  /** `_generate_select_sql_query(last_n, columns)`. */
  function GenerateSelectSqlQuery(lastN: int, columns: Columns): string {
    "SELECT " + ColumnsText(columns) + " FROM energy_usage ORDER BY timestamp DESC LIMIT " + IntToString(lastN)
  }

  /** The INSERT of a record binds the placeholders $1..$5, one per column. */
  lemma InsertPlaceholders()
    ensures Placeholders(|UsageKeys()|) == ["$1", "$2", "$3", "$4", "$5"]
  {
    assert NatToString(1) == "1" && NatToString(2) == "2" && NatToString(3) == "3";
    assert NatToString(4) == "4" && NatToString(5) == "5";
    assert "$" + NatToString(1) == "$1" && "$" + NatToString(2) == "$2" && "$" + NatToString(3) == "$3";
    assert "$" + NatToString(4) == "$4" && "$" + NatToString(5) == "$5";
    assert Placeholders(0) == [];
    assert Placeholders(1) == Placeholders(0) + ["$" + NatToString(1)] == ["$1"];
    assert Placeholders(2) == Placeholders(1) + ["$" + NatToString(2)] == ["$1", "$2"];
    assert Placeholders(3) == Placeholders(2) + ["$" + NatToString(3)] == ["$1", "$2", "$3"];
    assert Placeholders(4) == Placeholders(3) + ["$" + NatToString(4)] == ["$1", "$2", "$3", "$4"];
    assert Placeholders(5) == Placeholders(4) + ["$" + NatToString(5)];
  }

  /** The values `write_usage` passes line up with the INSERT's columns:
      the i-th placeholder binds the value stored under the i-th column. */
  lemma InsertBindsColumnValues(u: EnergyUsage, i: nat)
    requires i < |UsageKeys()|
    ensures |Values(GetDict(u))| == |Placeholders(|UsageKeys()|)| == |Keys(GetDict(u))|
    ensures Placeholders(|UsageKeys()|)[i] == "$" + NatToString(i + 1)
    ensures Get(GetDict(u), UsageKeys()[i]) == Some(Values(GetDict(u))[i])
  {
    var d := GetDict(u);
    assert UniqueKeys(d) by {
      forall j, k | 0 <= j < k < |d| ensures d[j].0 != d[k].0 {
        assert Keys(d)[j] == d[j].0 && Keys(d)[k] == d[k].0;
      }
    }
    GetItem(d, i);
  }

  /** The SELECT ends in a LIMIT clause from which `last_n` reads back. */
  lemma SelectLimitReadsBack(lastN: int, columns: Columns)
    ensures var q := GenerateSelectSqlQuery(lastN, columns);
            var n := |IntToString(lastN)|;
            n <= |q| && ParseInt(q[|q| - n..]) == Some(lastN)
  {
    var q := GenerateSelectSqlQuery(lastN, columns);
    assert q[|q| - |IntToString(lastN)|..] == IntToString(lastN);
    ParseIntOfIntToString(lastN);
  }

  /** The query `read_usage()` sends with its defaults. */
  lemma DefaultSelectText()
    ensures GenerateSelectSqlQuery(DefaultLastN, ColumnText("*")) ==
      "SELECT " + "*" + " FROM energy_usage ORDER BY timestamp DESC LIMIT " + "10"
  {
    assert NatToString(1) == "1";
    assert NatToString(10) == NatToString(1) + [DigitChar(0)];
    assert NatToString(1) + [DigitChar(0)] == "10";
    assert IntToString(10) == "10";
  }

  /** A list of names is joined with ", ". */
  lemma SelectListText(lastN: int, a: string, b: string)
    ensures GenerateSelectSqlQuery(lastN, ColumnList([a, b])) ==
      "SELECT " + a + ", " + b + " FROM energy_usage ORDER BY timestamp DESC LIMIT " + IntToString(lastN)
  {
    assert [a, b][1..] == [b];
  }

  /** The state of `self.conn`: None, an open connection, or one that is already closed. */
  datatype Conn = NoConn | Open | Closed

  /** What `close()` leaves in `self.conn`. */
  function AfterClose(c: Conn): (r: Conn)
    ensures r != Open
    ensures c != Open ==> r == c
  {
    if c == Open then NoConn else c
  }

  /** `close()` is idempotent. */
  lemma CloseIdempotent(c: Conn)
    ensures AfterClose(AfterClose(c)) == AfterClose(c)
  {
  }

  /** What the server does with one statement: runs it, refuses it (a
      server-side error), or drops the connection. */
  datatype ServerReply<T> = Done(result: T) | Rejected | Dropped

  /** The calls the sink makes on the server, in order. */
  datatype DbCall = Connect | Execute(sql: string, args: seq<Value>) | Fetch(sql: string) | CloseConn

  class Database {
    var conn: Conn
    var calls: seq<DbCall>

    constructor ()
      ensures conn == NoConn && calls == []
    {
      conn := NoConn;
      calls := [];
    }

    /** On an open connection: close it and forget it; otherwise do nothing. */
    method Close()
      modifies this
      ensures conn == AfterClose(old(conn))
      ensures calls == old(calls) + (if old(conn) == Open then [CloseConn] else [])
    {
      if conn == Open {
        calls := calls + [CloseConn];
        conn := NoConn;
      }
    }

    /** `write_usage(u)`: connect, execute the INSERT with the record's values
        in column order, and close in `finally`. A failed connect raises before
        the `try`, so nothing is closed then. */
    method WriteUsage(u: EnergyUsage, connected: bool, reply: ServerReply<()>) returns (r: Result<()>)
      modifies this
      ensures !connected ==> r == Err(ConnectionError) && conn == old(conn) && calls == old(calls)
      ensures connected ==> r == (match reply case Done(_) => Ok(()) case Rejected => Err(ServerError) case Dropped => Err(ConnectionError))
      ensures connected ==> conn == (if reply.Dropped? then Closed else NoConn)
      ensures connected ==>
        calls == old(calls) + [Connect, Execute(GenerateInsertSqlQuery(u), Values(GetDict(u)))]
                 + (if reply.Dropped? then [] else [CloseConn])
    {
      if !connected {
        return Err(ConnectionError);
      }
      conn := Open;
      calls := calls + [Connect];
      var sql := GenerateInsertSqlQuery(u);
      calls := calls + [Execute(sql, Values(GetDict(u)))];
      if reply.Dropped? {
        conn := Closed;
      }
      r := match reply case Done(_) => Ok(()) case Rejected => Err(ServerError) case Dropped => Err(ConnectionError);
      Close();
    }

    /** `read_usage(last_n=10, columns="*")`: connect, fetch the SELECT, close
        in `finally`, and return the rows the server sent. */
    method ReadUsage(connected: bool, reply: ServerReply<seq<Dict<Value>>>,
                     lastN: int := DefaultLastN, columns: Columns := ColumnText("*"))
      returns (r: Result<seq<Dict<Value>>>)
      modifies this
      ensures !connected ==> r == Err(ConnectionError) && conn == old(conn) && calls == old(calls)
      ensures connected ==> r == (match reply case Done(rows) => Ok(rows) case Rejected => Err(ServerError) case Dropped => Err(ConnectionError))
      ensures connected ==> conn == (if reply.Dropped? then Closed else NoConn)
      ensures connected ==>
        calls == old(calls) + [Connect, Fetch(GenerateSelectSqlQuery(lastN, columns))]
                 + (if reply.Dropped? then [] else [CloseConn])
    {
      if !connected {
        return Err(ConnectionError);
      }
      conn := Open;
      calls := calls + [Connect];
      calls := calls + [Fetch(GenerateSelectSqlQuery(lastN, columns))];
      if reply.Dropped? {
        conn := Closed;
      }
      r := match reply case Done(rows) => Ok(rows) case Rejected => Err(ServerError) case Dropped => Err(ConnectionError);
      Close();
    }
  }
}
