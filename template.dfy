/** Text templates of the form `lit0 ${f0} lit1 ${f1} ... litN`, as the
    portfolio generator writes them with template literals that interpolate
    values without escaping them, and the reading of such text back into its
    fields. */
module Template {
  import opened Wrappers
  import Text

  /** The literal pieces of a template: at least one, and every piece that
      follows a field is non-empty, so its first character ends the field. */
  predicate Literals(lits: seq<string>)
  {
    |lits| >= 1 && forall i :: 1 <= i < |lits| ==> |lits[i]| > 0
  }

  /** The text with `fields[i]` written between `lits[i]` and `lits[i + 1]`. */
  function Fill(lits: seq<string>, fields: seq<string>): (r: string)
    requires |lits| == |fields| + 1
    ensures Text.StartsWith(r, lits[0])
    decreases |fields|
  {
    if |fields| == 0 then lits[0]
    else
      var tail := Fill(lits[1..], fields[1..]);
      assert (lits[0] + (fields[0] + tail))[..|lits[0]|] == lits[0];
      lits[0] + (fields[0] + tail)
  }

  /** The position of the first `c` in `s`, or `|s|` when there is none. */
  function Stop(s: string, c: char): (k: nat)
    ensures k <= |s|
    ensures k < |s| ==> s[k] == c
    ensures forall i :: 0 <= i < k ==> s[i] != c
  {
    if |s| == 0 || s[0] == c then 0 else 1 + Stop(s[1..], c)
  }

  /** Reads text back against a template: each literal must come next, and
      each field runs up to the first character of the literal after it.
      Gives the fields and the text after the last literal. */
  function Unfill(lits: seq<string>, s: string): (r: Option<(seq<string>, string)>)
    requires Literals(lits)
    ensures r.Some? ==> |r.value.0| == |lits| - 1 && |r.value.1| <= |s| - |lits[0]|
    decreases |lits|
  {
    if !Text.StartsWith(s, lits[0]) then None
    else
      var t := s[|lits[0]|..];
      if |lits| == 1 then Some(([], t))
      else
        var k := Stop(t, lits[1][0]);
        match Unfill(lits[1..], t[k..])
        case None => None
        case Some(p) => Some(([t[..k]] + p.0, p.1))
  }

  /** The fields can be read back: none of them contains the character that
      starts the literal after it. */
  predicate Fits(lits: seq<string>, fields: seq<string>)
    ensures Fits(lits, fields) ==> |lits| == |fields| + 1
  {
    |lits| == |fields| + 1 && Literals(lits) &&
    forall i :: 0 <= i < |fields| ==> lits[i + 1][0] !in fields[i]
  }

  lemma StopAt(a: string, b: string, c: char)
    requires c !in a && |b| > 0 && b[0] == c
    ensures Stop(a + b, c) == |a|
    decreases |a|
  {
    if |a| > 0 {
      assert (a + b)[1..] == a[1..] + b;
    }
  }

  lemma FitsTail(lits: seq<string>, fields: seq<string>)
    requires Fits(lits, fields) && |fields| > 0
    ensures Fits(lits[1..], fields[1..])
  {
    forall i | 0 <= i < |fields| - 1
      ensures lits[1..][i + 1][0] !in fields[1..][i]
    {
      assert lits[1..][i + 1] == lits[i + 2];
      assert fields[1..][i] == fields[i + 1];
    }
  }

  /** Reading back a filled template, followed by any text, gives the
      fields and that text. */
  lemma {:induction false} UnfillFill(lits: seq<string>, fields: seq<string>, rest: string)
    requires Fits(lits, fields)
    ensures Unfill(lits, Fill(lits, fields) + rest) == Some((fields, rest))
    decreases |fields|
  {
    var s := Fill(lits, fields) + rest;
    assert s[..|lits[0]|] == lits[0];
    if |fields| == 0 {
      assert s[|lits[0]|..] == rest;
    } else {
      var tail := Fill(lits[1..], fields[1..]) + rest;
      var t := fields[0] + tail;
      assert s[|lits[0]|..] == t by {
        assert s == lits[0] + t;
      }
      assert tail[..|lits[1]|] == lits[1];
      StopAt(fields[0], tail, lits[1][0]);
      assert t[..|fields[0]|] == fields[0];
      assert t[|fields[0]|..] == tail;
      FitsTail(lits, fields);
      UnfillFill(lits[1..], fields[1..], rest);
      assert fields == [fields[0]] + fields[1..];
    }
  }

  /** Each row of fields written into the template, in order. */
  function Fills(lits: seq<string>, rows: seq<seq<string>>): (r: seq<string>)
    requires forall i :: 0 <= i < |rows| ==> |lits| == |rows[i]| + 1
    ensures |r| == |rows|
    ensures forall i :: 0 <= i < |rows| ==> r[i] == Fill(lits, rows[i])
  {
    seq(|rows|, i requires 0 <= i < |rows| => Fill(lits, rows[i]))
  }

  /** Reads back rows written one after another with nothing between them,
      as `rows.map(...).join('')` writes them. */
  function UnfillAll(lits: seq<string>, s: string): (r: Option<seq<seq<string>>>)
    requires Literals(lits) && |lits[0]| > 0
    decreases |s|
  {
    if s == [] then Some([])
    else
      match Unfill(lits, s)
      case None => None
      case Some(p) =>
        match UnfillAll(lits, p.1)
        case None => None
        case Some(rows) => Some([p.0] + rows)
  }

  /** Rows written with `join('')` are read back, in order, one per row. */
  lemma {:induction false} UnfillAllFills(lits: seq<string>, rows: seq<seq<string>>)
    requires Literals(lits) && |lits[0]| > 0
    requires forall i :: 0 <= i < |rows| ==> |lits| == |rows[i]| + 1 && Fits(lits, rows[i])
    ensures UnfillAll(lits, Text.Concat(Fills(lits, rows))) == Some(rows)
    decreases |rows|
  {
    if |rows| > 0 {
      var parts := Fills(lits, rows);
      assert parts[1..] == Fills(lits, rows[1..]);
      var more := Text.Concat(parts[1..]);
      UnfillFill(lits, rows[0], more);
      UnfillAllFills(lits, rows[1..]);
      assert rows == [rows[0]] + rows[1..];
    }
  }

  /** The template with `sep` put in front of its first literal. */
  function Prefixed(sep: string, lits: seq<string>): (r: seq<string>)
    requires |lits| >= 1
    ensures |r| == |lits| && r[0] == sep + lits[0] && r[1..] == lits[1..]
  {
    [sep + lits[0]] + lits[1..]
  }

  /** Reads back rows written with a separator between them, as
      `rows.map(...).join(sep)` writes them: the first row, then every
      other row with the separator in front. */
  function UnfillJoined(lits: seq<string>, sep: string, s: string): (r: Option<seq<seq<string>>>)
    requires Literals(lits) && |sep| > 0
  {
    match Unfill(lits, s)
    case None => None
    case Some(p) =>
      match UnfillAll(Prefixed(sep, lits), p.1)
      case None => None
      case Some(rows) => Some([p.0] + rows)
  }

  lemma FillPrefixed(sep: string, lits: seq<string>, fields: seq<string>)
    requires |lits| == |fields| + 1
    ensures Fill(Prefixed(sep, lits), fields) == sep + Fill(lits, fields)
  {
    if |fields| > 0 {
      assert Prefixed(sep, lits)[1..] == lits[1..];
    }
  }

  lemma {:induction false} JoinAsConcat(sep: string, lits: seq<string>, rows: seq<seq<string>>)
    requires |lits| >= 1 && |rows| >= 1
    requires forall i :: 0 <= i < |rows| ==> |lits| == |rows[i]| + 1
    ensures Text.Join(Fills(lits, rows), sep) ==
      Fill(lits, rows[0]) + Text.Concat(Fills(Prefixed(sep, lits), rows[1..]))
    decreases |rows|
  {
    var parts := Fills(lits, rows);
    var pre := Fills(Prefixed(sep, lits), rows[1..]);
    if |rows| == 1 {
      assert pre == [];
    } else {
      assert parts[1..] == Fills(lits, rows[1..]);
      JoinAsConcat(sep, lits, rows[1..]);
      FillPrefixed(sep, lits, rows[1]);
      assert pre[1..] == Fills(Prefixed(sep, lits), rows[2..]);
      assert rows[1..][1..] == rows[2..];
    }
  }

  lemma FitsPrefixed(lits: seq<string>, sep: string, fields: seq<string>)
    requires Fits(lits, fields)
    ensures Fits(Prefixed(sep, lits), fields)
  {
    var pl := Prefixed(sep, lits);
    forall j | 1 <= j < |pl|
      ensures pl[j] == lits[j]
    {
      assert pl[j] == pl[1..][j - 1];
    }
  }

  lemma FitsAllPrefixed(lits: seq<string>, sep: string, rows: seq<seq<string>>)
    requires |lits| >= 1
    requires forall i :: 0 <= i < |rows| ==> |lits| == |rows[i]| + 1 && Fits(lits, rows[i])
    ensures forall i :: 0 <= i < |rows| ==> |Prefixed(sep, lits)| == |rows[i]| + 1 && Fits(Prefixed(sep, lits), rows[i])
  {
    forall i | 0 <= i < |rows|
      ensures Fits(Prefixed(sep, lits), rows[i])
    {
      FitsPrefixed(lits, sep, rows[i]);
    }
  }

  lemma UnfillJoinedStep(lits: seq<string>, sep: string, s: string, more: string, rows: seq<seq<string>>)
    requires Literals(lits) && |sep| > 0 && |rows| >= 1
    requires Unfill(lits, s) == Some((rows[0], more))
    requires UnfillAll(Prefixed(sep, lits), more) == Some(rows[1..])
    ensures UnfillJoined(lits, sep, s) == Some(rows)
  {
    assert rows == [rows[0]] + rows[1..];
  }

  /** Rows written with `join(sep)` are read back, in order, one per row,
      when there is at least one row. */
  lemma UnfillJoinedFills(lits: seq<string>, sep: string, rows: seq<seq<string>>)
    requires Literals(lits) && |rows| >= 1 && |sep| > 0
    requires forall i :: 0 <= i < |rows| ==> |lits| == |rows[i]| + 1 && Fits(lits, rows[i])
    ensures UnfillJoined(lits, sep, Text.Join(Fills(lits, rows), sep)) == Some(rows)
  {
    var pl := Prefixed(sep, lits);
    var tail := rows[1..];
    var s := Text.Join(Fills(lits, rows), sep);
    var more := Text.Concat(Fills(pl, tail));
    JoinAsConcat(sep, lits, rows);
    assert s == Fill(lits, rows[0]) + more;
    UnfillFill(lits, rows[0], more);
    FitsAllPrefixed(lits, sep, tail);
    UnfillAllFills(pl, tail);
    UnfillJoinedStep(lits, sep, s, more, rows);
  }
}
