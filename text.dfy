/** The JavaScript string operations the pages rely on: whitespace and `trim`,
    `startsWith`/`endsWith`, `split` with a non-empty separator and `join`. */
module Text {

  /** ECMAScript WhiteSpace and LineTerminator: the set matched by `\s` and stripped by `trim`. */
  predicate IsSpace(c: char)
  {
    c == '\t' || c == '\n' || c == '\U{000B}' || c == '\U{000C}' || c == '\r' || c == ' ' ||
    c == '\U{00A0}' || c == '\U{1680}' || ('\U{2000}' <= c <= '\U{200A}') ||
    c == '\U{2028}' || c == '\U{2029}' || c == '\U{202F}' || c == '\U{205F}' || c == '\U{3000}' ||
    c == '\U{FEFF}'
  }

  predicate AllSpace(s: string)
  {
    forall i :: 0 <= i < |s| ==> IsSpace(s[i])
  }

  /** The length of the longest all-whitespace prefix of `s`. */
  function LeadingSpaces(s: string): (n: nat)
    ensures n <= |s|
    ensures n == |s| || !IsSpace(s[n])
    decreases |s|
  {
    if |s| == 0 || !IsSpace(s[0]) then 0 else 1 + LeadingSpaces(s[1..])
  }

  /** Every character of the leading whitespace run is whitespace. */
  lemma {:induction false} LeadingSpacesAreSpaces(s: string, i: nat)
    requires i < LeadingSpaces(s)
    ensures IsSpace(s[i])
    decreases |s|
  {
    if i > 0 { LeadingSpacesAreSpaces(s[1..], i - 1); }
  }

  /** The length of the longest all-whitespace suffix of `s`. */
  function TrailingSpaces(s: string): (n: nat)
    ensures n <= |s|
    ensures n == |s| || !IsSpace(s[|s| - n - 1])
    decreases |s|
  {
    if |s| == 0 || !IsSpace(s[|s| - 1]) then 0 else 1 + TrailingSpaces(s[..|s| - 1])
  }

  /** `String.prototype.trim`. */
  function Trim(s: string): (r: string)
    ensures |r| <= |s| - LeadingSpaces(s)
    ensures r == [] || (!IsSpace(r[0]) && !IsSpace(r[|r| - 1]))
  {
    var t := s[LeadingSpaces(s)..];
    t[..|t| - TrailingSpaces(t)]
  }

  /** The trimmed text is a slice of the input that starts after its
      leading whitespace. */
  lemma TrimInside(s: string)
    ensures Trim(s) == s[LeadingSpaces(s)..][..|Trim(s)|]
  {
  }

  /** `Trim(s)` is empty exactly when `s` consists of whitespace only. */
  lemma TrimEmpty(s: string)
    ensures Trim(s) == [] <==> AllSpace(s)
  {
    var n := LeadingSpaces(s);
    var t := s[n..];
    if AllSpace(s) {
      assert n == |s|;
    } else {
      var k :| 0 <= k < |s| && !IsSpace(s[k]);
      if k < n { LeadingSpacesAreSpaces(s, k); }
      assert t[0] == s[n] && !IsSpace(t[0]);
      assert TrailingSpaces(t) < |t| by {
        if TrailingSpaces(t) == |t| { TrailingSpacesAreSpaces(t, 0); }
      }
    }
  }

  /** Every character of the trailing whitespace run is whitespace. */
  lemma {:induction false} TrailingSpacesAreSpaces(s: string, i: nat)
    requires |s| - TrailingSpaces(s) <= i < |s|
    ensures IsSpace(s[i])
    decreases |s|
  {
    if i < |s| - 1 {
      TrailingSpacesAreSpaces(s[..|s| - 1], i);
    }
  }

  /** Every character of `Trim(s)` is a character of `s`. */
  lemma TrimChars(s: string, c: char)
    requires c in Trim(s)
    ensures c in s
  {
    var k :| 0 <= k < |Trim(s)| && Trim(s)[k] == c;
    assert s[LeadingSpaces(s) + k] == c;
  }

  /** Trimming a string that neither starts nor ends with whitespace changes nothing. */
  lemma TrimNoop(s: string)
    requires s == [] || (!IsSpace(s[0]) && !IsSpace(s[|s| - 1]))
    ensures Trim(s) == s
  {
  }

  predicate StartsWith(s: string, p: string)
  {
    |p| <= |s| && s[..|p|] == p
  }

  predicate EndsWith(s: string, p: string)
  {
    |p| <= |s| && s[|s| - |p|..] == p
  }

  /** `s.split(sep)` for a non-empty separator: the pieces between the
      non-overlapping occurrences of `sep`, found left to right. */
  function Split(s: string, sep: string): (r: seq<string>)
    requires |sep| > 0
    ensures |r| >= 1
    decreases |s|
  {
    if |s| < |sep| then [s]
    else if s[..|sep|] == sep then [""] + Split(s[|sep|..], sep)
    else var rest := Split(s[1..], sep); [[s[0]] + rest[0]] + rest[1..]
  }

  /** `parts.join(sep)`. */
  function Join(parts: seq<string>, sep: string): (r: string)
    decreases |parts|
  {
    if |parts| == 0 then ""
    else if |parts| == 1 then parts[0]
    else parts[0] + sep + Join(parts[1..], sep)
  }

  /** The concatenation of `parts`, i.e. `parts.join('')`. */
  function Concat(parts: seq<string>): (r: string)
  {
    if |parts| == 0 then "" else parts[0] + Concat(parts[1..])
  }

  /** Joining the pieces of a split with the same separator gives back the input. */
  lemma {:induction false} JoinSplit(s: string, sep: string)
    requires |sep| > 0
    ensures Join(Split(s, sep), sep) == s
    decreases |s|
  {
    if |s| < |sep| {
    } else if s[..|sep|] == sep {
      var rest := Split(s[|sep|..], sep);
      JoinSplit(s[|sep|..], sep);
      assert s == sep + s[|sep|..];
    } else {
      var rest := Split(s[1..], sep);
      JoinSplit(s[1..], sep);
      if |rest| == 1 {
        assert s == [s[0]] + s[1..];
      } else {
        assert Join(rest, sep) == rest[0] + sep + Join(rest[1..], sep);
        var r := Split(s, sep);
        assert r[1..] == rest[1..];
        assert Join(r, sep) == ([s[0]] + rest[0]) + sep + Join(rest[1..], sep);
        assert s == [s[0]] + s[1..];
      }
    }
  }

  /** Splitting on a one-character separator never yields a piece that contains it. */
  lemma {:induction false} SplitPiecesAvoidSeparator(s: string, c: char)
    ensures forall k :: 0 <= k < |Split(s, [c])| ==> c !in Split(s, [c])[k]
    decreases |s|
  {
    if |s| >= 1 {
      if s[..1] == [c] {
        SplitPiecesAvoidSeparator(s[1..], c);
      } else {
        SplitPiecesAvoidSeparator(s[1..], c);
        var rest := Split(s[1..], [c]);
        assert s[0] != c by { assert s[..1][0] == s[0]; }
        assert Split(s, [c]) == [[s[0]] + rest[0]] + rest[1..];
        forall k | 0 <= k < |Split(s, [c])| ensures c !in Split(s, [c])[k] {
          if k > 0 { assert Split(s, [c])[k] == rest[k]; }
        }
      }
    }
  }

  /** The text after the last occurrence of `c`, that is `s.split(c).pop()`. */
  function LastPiece(s: string, c: char): (r: string)
    ensures r == Split(s, [c])[|Split(s, [c])| - 1]
    ensures c !in r
    ensures EndsWith(s, r)
    ensures |r| == |s| || s[|s| - |r| - 1] == c
  {
    SplitPiecesAvoidSeparator(s, c);
    LastPieceIsSuffix(s, c);
    Split(s, [c])[|Split(s, [c])| - 1]
  }

  lemma {:induction false} LastPieceIsSuffix(s: string, c: char)
    ensures var pieces := Split(s, [c]); var r := pieces[|pieces| - 1];
      EndsWith(s, r) &&
      (|pieces| == 1 ==> r == s) &&
      (|pieces| > 1 ==> |r| < |s| && s[|s| - |r| - 1] == c)
    decreases |s|
  {
    if |s| >= 1 {
      var rest := Split(s[1..], [c]);
      LastPieceIsSuffix(s[1..], c);
      var r := rest[|rest| - 1];
      var pieces := Split(s, [c]);
      assert |r| <= |s| - 1;
      assert s[|s| - |r|..] == s[1..][|s| - 1 - |r|..];
      if s[..1] == [c] {
        assert pieces == [""] + rest;
        assert pieces[|pieces| - 1] == r;
        assert s[0] == c by { assert s[..1][0] == s[0]; }
        if |rest| > 1 {
          assert s[1..][|s| - 1 - |r| - 1] == c;
        }
      } else if |rest| == 1 {
        assert pieces == [[s[0]] + rest[0]];
        assert s == [s[0]] + s[1..];
      } else {
        assert pieces == [[s[0]] + rest[0]] + rest[1..];
        assert pieces[|pieces| - 1] == r;
        assert s[1..][|s| - 1 - |r| - 1] == c;
      }
    }
  }

  /** `s.replace(c, '')` with a one-character string pattern: deletes the first `c`, if any. */
  function RemoveFirst(s: string, c: char): (r: string)
    ensures |r| <= |s|
  {
    if |s| == 0 then ""
    else if s[0] == c then s[1..]
    else [s[0]] + RemoveFirst(s[1..], c)
  }

  /** When the first `c` of `s` is at index `k`, `RemoveFirst` cuts out exactly that character. */
  lemma {:induction false} RemoveFirstAt(s: string, c: char, k: nat)
    requires k < |s| && s[k] == c
    requires forall i :: 0 <= i < k ==> s[i] != c
    ensures RemoveFirst(s, c) == s[..k] + s[k + 1..]
  {
    if k > 0 {
      RemoveFirstAt(s[1..], c, k - 1);
      assert s[..k] == [s[0]] + s[1..][..k - 1];
      assert s[k + 1..] == s[1..][k..];
    }
  }

  /** `s.replace(/p/g, '')` for a literal pattern `p`: deletes its non-overlapping occurrences left to right. */
  function RemoveAll(s: string, p: string): (r: string)
    requires |p| > 0
    ensures |r| <= |s|
    decreases |s|
  {
    if |s| < |p| then s
    else if s[..|p|] == p then RemoveAll(s[|p|..], p)
    else [s[0]] + RemoveAll(s[1..], p)
  }

  /** The decimal digits of `n`, as `String(n)` writes a non-negative integer. */
  function DecimalString(n: nat): (r: string)
    ensures |r| >= 1
    ensures forall i :: 0 <= i < |r| ==> '0' <= r[i] <= '9'
  {
    var d := ['0' + (n % 10) as char];
    if n < 10 then d else DecimalString(n / 10) + d
  }

  /** A text without `c` is a single piece. */
  lemma {:induction false} SplitWithout(a: string, c: char)
    requires c !in a
    ensures Split(a, [c]) == [a]
    decreases |a|
  {
    if |a| >= 1 {
      assert a[..1] != [c] by { assert a[..1][0] == a[0]; }
      SplitWithout(a[1..], c);
      assert a == [a[0]] + a[1..];
    }
  }

  /** A piece without `c` followed by `c` is split off as the first piece. */
  lemma {:induction false} SplitAfterPiece(a: string, c: char, rest: string)
    requires c !in a
    ensures Split(a + [c] + rest, [c]) == [a] + Split(rest, [c])
    decreases |a|
  {
    var s := a + [c] + rest;
    if |a| == 0 {
      assert s == [c] + rest;
      assert s[..1] == [c];
      assert s[1..] == rest;
    } else {
      assert s[..1] != [c] by { assert s[..1][0] == a[0]; }
      assert s[1..] == a[1..] + [c] + rest;
      SplitAfterPiece(a[1..], c, rest);
      assert a == [a[0]] + a[1..];
    }
  }

  /** Splitting a join on a one-character separator that no part contains
      gives back the parts. */
  lemma {:induction false} SplitJoin(parts: seq<string>, c: char)
    requires |parts| >= 1
    requires forall k :: 0 <= k < |parts| ==> c !in parts[k]
    ensures Split(Join(parts, [c]), [c]) == parts
    decreases |parts|
  {
    if |parts| == 1 {
      SplitWithout(parts[0], c);
    } else {
      SplitJoin(parts[1..], c);
      SplitAfterPiece(parts[0], c, Join(parts[1..], [c]));
      assert parts == [parts[0]] + parts[1..];
    }
  }

  /** Joining two non-empty lists of parts is joining each and putting one
      separator between them. */
  lemma {:induction false} JoinAppend(xs: seq<string>, ys: seq<string>, sep: string)
    requires |xs| > 0 && |ys| > 0
    ensures Join(xs + ys, sep) == Join(xs, sep) + sep + Join(ys, sep)
    decreases |xs|
  {
    if |xs| == 1 {
      assert (xs + ys)[1..] == ys;
    } else {
      assert (xs + ys)[1..] == xs[1..] + ys;
      JoinAppend(xs[1..], ys, sep);
    }
  }

  /** Splitting a join followed by the separator and more text gives back
      the parts and then the pieces of the rest. */
  lemma {:induction false} SplitJoinThen(parts: seq<string>, c: char, rest: string)
    requires |parts| >= 1
    requires forall k :: 0 <= k < |parts| ==> c !in parts[k]
    ensures Split(Join(parts, [c]) + [c] + rest, [c]) == parts + Split(rest, [c])
    decreases |parts|
  {
    if |parts| == 1 {
      SplitAfterPiece(parts[0], c, rest);
    } else {
      var j := Join(parts[1..], [c]);
      var tail := j + [c] + rest;
      var more := Split(rest, [c]);
      assert Join(parts, [c]) + [c] + rest == parts[0] + [c] + tail by {
        assert Join(parts, [c]) == parts[0] + [c] + j;
        ThenShape(parts[0], [c], j, rest);
      }
      SplitAfterPiece(parts[0], c, tail);
      SplitJoinThen(parts[1..], c, rest);
      PiecesShape(parts, more);
    }
  }

  lemma ThenShape(a: string, sep: string, j: string, rest: string)
    ensures a + sep + j + sep + rest == a + sep + (j + sep + rest)
  {
  }

  lemma PiecesShape(parts: seq<string>, more: seq<string>)
    requires |parts| >= 1
    ensures [parts[0]] + (parts[1..] + more) == parts + more
  {
    assert parts == [parts[0]] + parts[1..];
  }

  /** A join avoids a character that neither the parts nor the separator
      contain. */
  lemma {:induction false} JoinAvoids(parts: seq<string>, sep: string, c: char)
    requires forall k :: 0 <= k < |parts| ==> c !in parts[k]
    requires c !in sep
    ensures c !in Join(parts, sep)
    decreases |parts|
  {
    if |parts| > 1 {
      JoinAvoids(parts[1..], sep, c);
    }
  }
}
