/** `Wifi._parse_interfaces` of winwifi/wifi.py: the report of
    `netsh wlan show interface` turned into a dict of normalised field
    names to values. */
module Interfaces {
  import opened Outcomes
  import opened PyText
  import opened Commands

  const Mbps := "(Mbps)"
  const BlockSep := "\r\n\r\n"
  const LineSep := "\r\n"

  /** A Python dict from text to text: the keys in insertion order and the
      value of each key. */
  datatype Dict = Dict(order: seq<string>, entries: map<string, string>) {
    /** Every key in the order has a value. */
    ghost predicate Valid() {
      forall i :: 0 <= i < |order| ==> order[i] in entries
    }

    /** The shape of a Python dict: the order lists every key exactly once. */
    ghost predicate Exact() {
      Valid() &&
      (forall i, j :: 0 <= i < j < |order| ==> order[i] != order[j]) &&
      (forall k :: k in entries ==> k in order)
    }
  }

  const EmptyDict := Dict([], map[])

  /** `d[k] = v`: a new key goes to the end of the order, an existing key
      keeps its place and takes the new value. */
  function Put(d: Dict, k: string, v: string): (r: Dict)
    requires d.Valid()
    ensures r.Valid()
    ensures r.entries == d.entries[k := v]
    ensures r.order == if k in d.entries then d.order else d.order + [k]
  {
    if k in d.entries then Dict(d.order, d.entries[k := v])
    else Dict(d.order + [k], d.entries[k := v])
  }

  /** Setting a key keeps the shape of a Python dict. */
  lemma PutExact(d: Dict, k: string, v: string)
    requires d.Exact()
    ensures Put(d, k, v).Exact()
  {
    var r := Put(d, k, v);
    forall x | x in r.entries ensures x in r.order {
      if x != k { assert x in d.order; }
    }
    if k !in d.entries {
      forall i | 0 <= i < |d.order| ensures d.order[i] != k {
        assert d.order[i] in d.entries;
      }
    }
  }

  /** The loop keeps the shape of a Python dict. */
  lemma {:induction false} FoldRowsExact(rows: seq<seq<string>>, i: nat, d: Dict)
    requires WellFormed(rows) && i <= |rows| && d.Exact() && FoldRows(rows, i, d).Ok?
    ensures FoldRows(rows, i, d).value.Exact()
    decreases |rows| - i
  {
    if i < |rows| {
      var row := rows[i];
      if |row| == 2 {
        PutExact(d, row[0], row[1]);
      } else if |row| == 1 {
        var key := PrevKey(rows, i);
        PutExact(d, key, d.entries[key] + ", " + row[0]);
      }
      FoldRowsExact(rows, i + 1, Step(rows, i, d).value);
    }
  }

  /** Every row has at least one field: `str.split` never returns an empty list. */
  ghost predicate WellFormed(rows: seq<seq<string>>) {
    forall i :: 0 <= i < |rows| ==> |rows[i]| >= 1
  }

  /** Every field is already stripped. */
  ghost predicate Stripped(rows: seq<seq<string>>) {
    forall i, j {:trigger Strip(rows[i][j])} :: 0 <= i < |rows| && 0 <= j < |rows[i]| ==> Strip(rows[i][j]) == rows[i][j]
  }

  /** `[x.strip() for x in line.split(" : ")]`: a line without the separator
      is a single field, its own stripped text. */
  function Fields(line: string): (r: seq<string>)
    ensures |r| == |Split(line, FieldSep)|
    ensures forall i :: 0 <= i < |r| ==> r[i] == Strip(Split(line, FieldSep)[i])
    ensures |r| == 1 <==> !Occurs(line, FieldSep)
    ensures |r| == 1 ==> r[0] == Strip(line)
  {
    var parts := Split(line, FieldSep);
    SplitHasSecondPiece(line, FieldSep);
    seq(|parts|, i requires 0 <= i < |parts| => Strip(parts[i]))
  }

  /** `[[x.strip() for x in y.split(" : ")] for y in block.split("\r\n")]` */
  function Rows(block: string): (rows: seq<seq<string>>)
    ensures |rows| == |Split(block, LineSep)|
    ensures WellFormed(rows) && Stripped(rows)
  {
    var lines := Split(block, LineSep);
    var rows := seq(|lines|, i requires 0 <= i < |lines| => Fields(lines[i]));
    assert Stripped(rows) by {
      forall i, j | 0 <= i < |rows| && 0 <= j < |rows[i]| ensures Strip(rows[i][j]) == rows[i][j] {
        StripIdempotent(Split(lines[i], FieldSep)[j]);
      }
    }
    rows
  }

  /** The first field of the row before row `i`: Python's `result[i - 1][0]`,
      where index -1 is the last row. */
  function PrevKey(rows: seq<seq<string>>, i: nat): string
    requires WellFormed(rows) && i < |rows|
  {
    rows[if i == 0 then |rows| - 1 else i - 1][0]
  }

  /** One pass of the loop of `_parse_interfaces` over row `i`: a row of two
      fields sets its key, a row of one field extends the previous row's key
      with ", " and its text, a row of three or more fields is skipped. Only
      a missing key to extend raises. */
  function Step(rows: seq<seq<string>>, i: nat, d: Dict): (r: Result<Dict>)
    requires WellFormed(rows) && i < |rows| && d.Valid()
    ensures r.Ok? ==> r.value.Valid()
    ensures r.Err? ==> r.error.KeyError?
  {
    var row := rows[i];
    if |row| == 2 then Ok(Put(d, row[0], row[1]))
    else if |row| == 1 then
      var key := PrevKey(rows, i);
      if key in d.entries then Ok(Put(d, key, d.entries[key] + ", " + row[0]))
      else Err(KeyError(key))
    else Ok(d)
  }

  /** The loop of `_parse_interfaces` from row `i` on, starting from dict `d`. */
  function FoldRows(rows: seq<seq<string>>, i: nat, d: Dict): (r: Result<Dict>)
    requires WellFormed(rows) && i <= |rows| && d.Valid()
    ensures r.Ok? ==> r.value.Valid()
    ensures r.Err? ==> r.error.KeyError?
    decreases |rows| - i
  {
    if i == |rows| then Ok(d)
    else
      match Step(rows, i, d)
      case Err(e) => Err(e)
      case Ok(next) => FoldRows(rows, i + 1, next)
  }

  lemma FoldStep(rows: seq<seq<string>>, i: nat, d: Dict)
    requires WellFormed(rows) && i < |rows| && d.Valid() && Step(rows, i, d).Ok?
    ensures FoldRows(rows, i, d) == FoldRows(rows, i + 1, Step(rows, i, d).value)
  {
  }

  /** The key normalisation of `_parse_interfaces`, one character at a time:
      a space becomes an underscore, an ASCII capital its small letter. */
  function NormKey(k: string): (key: string)
    ensures |key| == |k|
    ensures forall i :: 0 <= i < |key| ==> key[i] != ' ' && !('A' <= key[i] <= 'Z')
  {
    seq(|k|, i requires 0 <= i < |k| => if k[i] == ' ' then '_' else LowerChar(k[i]))
  }

  /** The character-wise normalisation is the source's expression
      `k.replace(" ", "_").lower()`. */
  lemma NormKeyIsReplaceLower(k: string)
    ensures NormKey(k) == Lower(Replace(k, " ", "_"))
  {
    ReplaceCharwise(k, ' ', '_');
    var r := Lower(Replace(k, " ", "_"));
    assert |r| == |k|;
    forall i | 0 <= i < |k| ensures r[i] == NormKey(k)[i] {
      assert Replace(k, " ", "_")[i] == if k[i] == ' ' then '_' else k[i];
    }
  }

  /** `{k.replace(" ", "_").lower(): v for k, v in d.items()}` over the
      first `n` items of `d`. */
  function NormalizePrefix(d: Dict, n: nat): (r: Dict)
    requires d.Valid() && n <= |d.order|
    ensures r.Valid()
  {
    if n == 0 then EmptyDict
    else
      var k := d.order[n - 1];
      assert k in d.entries;
      Put(NormalizePrefix(d, n - 1), NormKey(k), d.entries[k])
  }

  function Normalize(d: Dict): (r: Dict)
    requires d.Valid()
    ensures r.Valid()
  {
    NormalizePrefix(d, |d.order|)
  }

  /** The dict the rows of the second block give, or the KeyError they raise. */
  function RowsFields(rows: seq<seq<string>>): (r: Result<Dict>)
    requires WellFormed(rows)
    ensures r.Ok? ==> r.value.Valid()
  {
    match FoldRows(rows, 0, EmptyDict)
    case Err(e) => Err(e)
    case Ok(d) => Ok(Normalize(d))
  }

  /** What `_parse_interfaces` returns or raises for a report. */
  function InterfaceFields(report: string): (r: Result<Dict>)
    ensures r.Ok? ==> r.value.Valid()
  {
    var blocks := Split(Replace(report, Mbps, ""), BlockSep);
    if |blocks| < 2 then Err(IndexError) else RowsFields(Rows(blocks[1]))
  }

  /** `_parse_interfaces`: split the report as the source does, then read
      the rows of its second block. */
  method ParseInterfaces(report: string) returns (r: Result<Dict>)
    ensures r == InterfaceFields(report)
  {
    var blocks := Split(Replace(report, Mbps, ""), BlockSep);
    if |blocks| < 2 {
      return Err(IndexError);
    }
    r := ReadRows(Rows(blocks[1]));
  }

  /** The loop of `_parse_interfaces` over the split rows, which updates
      the dict in place, followed by the normalising comprehension. */
  method ReadRows(rows: seq<seq<string>>) returns (r: Result<Dict>)
    requires WellFormed(rows) && Stripped(rows)
    ensures r == RowsFields(rows)
  {
    var output := EmptyDict;
    ghost var whole := FoldRows(rows, 0, output);
    var i := 0;
    while i < |rows|
      invariant 0 <= i <= |rows|
      invariant output.Valid()
      invariant FoldRows(rows, i, output) == whole
    {
      var next := ReadRow(rows, i, output);
      if next.Err? {
        return Err(next.error);
      }
      FoldStep(rows, i, output);
      output := next.value;
      i := i + 1;
    }
    r := Ok(Normalize(output));
  }

  /** One pass of the loop body: `output[key] = val.strip()` for a row of
      two fields, `output[result[i - 1][0]] += ", " + line[0].strip()` for a
      row of one field. */
  method ReadRow(rows: seq<seq<string>>, i: nat, output: Dict) returns (r: Result<Dict>)
    requires WellFormed(rows) && Stripped(rows) && i < |rows| && output.Valid()
    ensures r == Step(rows, i, output)
  {
    var line := rows[i];
    if |line| == 2 {
      var key, val := Strip(line[0]), Strip(line[1]);
      assert key == line[0] && val == line[1];
      r := Ok(Put(output, key, Strip(val)));
    } else if |line| == 1 {
      var prev := rows[if i == 0 then |rows| - 1 else i - 1][0];
      if prev !in output.entries {
        return Err(KeyError(prev));
      }
      assert Strip(line[0]) == line[0];
      r := Ok(Put(output, prev, output.entries[prev] + ", " + Strip(line[0])));
    } else {
      r := Ok(output);
    }
  }

  // ---------------------------------------------------------------------
  // Properties of the parse

  /** The parse raises IndexError exactly when, once every "(Mbps)" is
      removed, the report has no blank-line boundary, so no second block. */
  lemma IndexErrorIffNoSecondBlock(report: string)
    ensures InterfaceFields(report) == Err(IndexError) <==> !Occurs(Replace(report, Mbps, ""), BlockSep)
  {
    SplitHasSecondPiece(Replace(report, Mbps, ""), BlockSep);
  }

  /** A continuation line first in the block always raises KeyError: the
      dict is still empty. The key looked up is the first field of the last
      row, Python's `result[-1][0]`. */
  lemma LeadingContinuationFails(rows: seq<seq<string>>)
    requires WellFormed(rows) && |rows| >= 1 && |rows[0]| == 1
    ensures FoldRows(rows, 0, EmptyDict) == Err(KeyError(rows[|rows| - 1][0]))
  {
  }

  /** A row of three or more fields changes nothing. */
  lemma WideRowSkipped(rows: seq<seq<string>>, i: nat, d: Dict)
    requires WellFormed(rows) && i < |rows| && d.Valid() && |rows[i]| >= 3
    ensures FoldRows(rows, i, d) == FoldRows(rows, i + 1, d)
  {
  }

  /** A key/value row followed by a continuation row acts as one row whose
      value is the two texts joined with ", ". */
  lemma ContinuationJoins(rows: seq<seq<string>>, j: nat, d: Dict)
    requires WellFormed(rows) && 1 <= j < |rows| && d.Valid()
    requires |rows[j - 1]| == 2 && |rows[j]| == 1
    ensures FoldRows(rows, j - 1, d) ==
            FoldRows(rows, j + 1, Put(d, rows[j - 1][0], rows[j - 1][1] + ", " + rows[j][0]))
  {
    var k, v := rows[j - 1][0], rows[j - 1][1];
    var d1 := Put(d, k, v);
    var d2 := Put(d1, k, v + ", " + rows[j][0]);
    assert Step(rows, j - 1, d) == Ok(d1);
    FoldStep(rows, j - 1, d);
    assert PrevKey(rows, j) == k;
    assert Step(rows, j, d1) == Ok(d2);
    FoldStep(rows, j, d1);
    PutTwice(d, k, v, v + ", " + rows[j][0]);
  }

  /** Setting a key twice is setting it to the second value. */
  lemma PutTwice(d: Dict, k: string, v: string, w: string)
    requires d.Valid()
    ensures Put(Put(d, k, v), k, w) == Put(d, k, w)
  {
    assert d.entries[k := v][k := w] == d.entries[k := w];
  }

  /** The keys of rows of two fields from row `i` on. */
  ghost function AssignedKeys(rows: seq<seq<string>>, i: nat): set<string>
    requires WellFormed(rows)
  {
    set m | i <= m < |rows| && |rows[m]| == 2 :: rows[m][0]
  }

  /** The parsed dict has exactly the keys of the rows of two fields:
      continuation rows only extend keys already there. */
  lemma {:induction false} KeysAreAssignedKeys(rows: seq<seq<string>>, i: nat, d: Dict)
    requires WellFormed(rows) && i <= |rows| && d.Valid()
    requires FoldRows(rows, i, d).Ok?
    ensures FoldRows(rows, i, d).value.entries.Keys == d.entries.Keys + AssignedKeys(rows, i)
    decreases |rows| - i
  {
    if i < |rows| {
      var next := Step(rows, i, d).value;
      KeysAreAssignedKeys(rows, i + 1, next);
      if |rows[i]| == 2 {
        assert AssignedKeys(rows, i) == {rows[i][0]} + AssignedKeys(rows, i + 1);
      } else {
        assert AssignedKeys(rows, i) == AssignedKeys(rows, i + 1);
      }
    } else {
      assert AssignedKeys(rows, i) == {};
    }
  }

  /** Row `m` neither sets nor extends key `k`. */
  ghost predicate LeavesKey(rows: seq<seq<string>>, m: nat, k: string)
    requires WellFormed(rows) && m < |rows|
  {
    !(|rows[m]| == 2 && rows[m][0] == k) && !(|rows[m]| == 1 && PrevKey(rows, m) == k)
  }

  lemma {:induction false} UntouchedKeyKept(rows: seq<seq<string>>, i: nat, d: Dict, k: string)
    requires WellFormed(rows) && i <= |rows| && d.Valid() && k in d.entries
    requires FoldRows(rows, i, d).Ok?
    requires forall m :: i <= m < |rows| ==> LeavesKey(rows, m, k)
    ensures k in FoldRows(rows, i, d).value.entries
    ensures FoldRows(rows, i, d).value.entries[k] == d.entries[k]
    decreases |rows| - i
  {
    if i < |rows| {
      assert LeavesKey(rows, i, k);
      UntouchedKeyKept(rows, i + 1, Step(rows, i, d).value, k);
    }
  }

  /** The value of a key is set by its last row of two fields, when no later
      row extends it: a later equal key overwrites an earlier one. */
  lemma {:induction false} LastAssignmentWins(rows: seq<seq<string>>, i: nat, d: Dict, j: nat)
    requires WellFormed(rows) && i <= j < |rows| && d.Valid()
    requires |rows[j]| == 2 && FoldRows(rows, i, d).Ok?
    requires forall m :: j < m < |rows| ==> LeavesKey(rows, m, rows[j][0])
    ensures rows[j][0] in FoldRows(rows, i, d).value.entries
    ensures FoldRows(rows, i, d).value.entries[rows[j][0]] == rows[j][1]
    decreases j - i
  {
    if i == j {
      UntouchedKeyKept(rows, j + 1, Put(d, rows[j][0], rows[j][1]), rows[j][0]);
    } else {
      LastAssignmentWins(rows, i + 1, Step(rows, i, d).value, j);
    }
  }

  /** The normalised dict has exactly the normalised keys. */
  lemma {:induction false} NormalizedKeys(d: Dict, n: nat)
    requires d.Valid() && n <= |d.order|
    ensures forall x :: x in NormalizePrefix(d, n).entries <==>
      exists j :: 0 <= j < n && NormKey(d.order[j]) == x
    decreases n
  {
    if n > 0 {
      NormalizedKeys(d, n - 1);
      var k := NormKey(d.order[n - 1]);
      assert NormalizePrefix(d, n).entries.Keys == NormalizePrefix(d, n - 1).entries.Keys + {k};
      forall x ensures x in NormalizePrefix(d, n).entries <==>
        exists j :: 0 <= j < n && NormKey(d.order[j]) == x
      {
        if x in NormalizePrefix(d, n - 1).entries {
          var j :| 0 <= j < n - 1 && NormKey(d.order[j]) == x;
          assert 0 <= j < n;
        } else if exists j :: 0 <= j < n && NormKey(d.order[j]) == x {
          var j :| 0 <= j < n && NormKey(d.order[j]) == x;
          assert j == n - 1;
        }
      }
    }
  }

  /** When two keys normalise alike, the one inserted later gives the value;
      values are carried over unchanged. */
  lemma {:induction false} LaterKeyWins(d: Dict, n: nat, i: nat)
    requires d.Valid() && i < n <= |d.order|
    requires forall j :: i < j < n ==> NormKey(d.order[j]) != NormKey(d.order[i])
    ensures NormKey(d.order[i]) in NormalizePrefix(d, n).entries
    ensures NormalizePrefix(d, n).entries[NormKey(d.order[i])] == d.entries[d.order[i]]
    decreases n
  {
    assert d.order[i] in d.order;
    if i < n - 1 {
      LaterKeyWins(d, n - 1, i);
    }
  }

  /** The keys of rows of two fields before row `i`: the keys the dict holds
      when the loop reaches row `i`. */
  ghost function KeysBefore(rows: seq<seq<string>>, i: nat): set<string>
    requires WellFormed(rows)
  {
    set m | 0 <= m < i && m < |rows| && |rows[m]| == 2 :: rows[m][0]
  }

  /** Row `i` is a continuation whose previous row's key no earlier row of two
      fields has set. */
  ghost predicate Blocked(rows: seq<seq<string>>, i: nat)
    requires WellFormed(rows) && i < |rows|
  {
    |rows[i]| == 1 && PrevKey(rows, i) !in KeysBefore(rows, i)
  }

  lemma KeysBeforeNext(rows: seq<seq<string>>, i: nat)
    requires WellFormed(rows) && i < |rows|
    ensures KeysBefore(rows, i + 1) ==
            KeysBefore(rows, i) + (if |rows[i]| == 2 then {rows[i][0]} else {})
  {
    if |rows[i]| == 2 {
      assert rows[i][0] in KeysBefore(rows, i + 1);
    }
  }

  /** From row `i` on, with the dict holding exactly the keys set before row
      `i`, the loop raises exactly when some later row is blocked, and then
      it raises `KeyError` for the first blocked row's previous key. */
  lemma {:induction false} FoldFailsAtBlocked(rows: seq<seq<string>>, i: nat, d: Dict)
    requires WellFormed(rows) && i <= |rows| && d.Valid()
    requires d.entries.Keys == KeysBefore(rows, i)
    ensures FoldRows(rows, i, d).Err? <==> exists j :: i <= j < |rows| && Blocked(rows, j)
    ensures FoldRows(rows, i, d).Err? ==>
      exists j :: i <= j < |rows| && Blocked(rows, j)
        && (forall m :: i <= m < j ==> !Blocked(rows, m))
        && FoldRows(rows, i, d).error == KeyError(PrevKey(rows, j))
    decreases |rows| - i
  {
    if i < |rows| {
      KeysBeforeNext(rows, i);
      var step := Step(rows, i, d);
      if step.Err? {
        assert Blocked(rows, i);
        assert FoldRows(rows, i, d) == step;
      } else {
        var next := step.value;
        assert !Blocked(rows, i);
        assert next.entries.Keys == KeysBefore(rows, i + 1);
        FoldStep(rows, i, d);
        FoldFailsAtBlocked(rows, i + 1, next);
        if exists j :: i <= j < |rows| && Blocked(rows, j) {
          var j :| i <= j < |rows| && Blocked(rows, j);
          assert j != i;
        }
        if FoldRows(rows, i, d).Err? {
          var j :| i + 1 <= j < |rows| && Blocked(rows, j)
            && (forall m :: i + 1 <= m < j ==> !Blocked(rows, m))
            && FoldRows(rows, i + 1, next).error == KeyError(PrevKey(rows, j));
          assert forall m :: i <= m < j ==> !Blocked(rows, m);
        }
      }
    }
  }

  /** `_parse_interfaces` raises `KeyError` exactly when some continuation
      line follows a line whose key no earlier key/value line has set
      (always so for a continuation first in the block); the key it names is
      that of the first such line's predecessor. */
  lemma KeyErrorIffBlocked(rows: seq<seq<string>>)
    requires WellFormed(rows)
    ensures RowsFields(rows).Err? <==> exists i :: 0 <= i < |rows| && Blocked(rows, i)
    ensures RowsFields(rows).Err? ==>
      exists i :: 0 <= i < |rows| && Blocked(rows, i)
        && (forall m :: 0 <= m < i ==> !Blocked(rows, m))
        && RowsFields(rows).error == KeyError(PrevKey(rows, i))
  {
    assert KeysBefore(rows, 0) == {};
    FoldFailsAtBlocked(rows, 0, EmptyDict);
  }
}
