/** The parts of Go's `strings` and `strconv` packages that dbsync relies on,
    over strings as sequences of characters.
 */
module Text {
  import opened Results

  /** `strings.HasPrefix`. */
  predicate HasPrefix(s: string, prefix: string) {
    |prefix| <= |s| && s[..|prefix|] == prefix
  }

  // ---------------------------------------------------------------------------
  // strings.Trim
  // ---------------------------------------------------------------------------

  /** Drops the leading characters that belong to `cut`. */
  function TrimLeft(s: string, cut: set<char>): (r: string)
    ensures |r| <= |s|
    ensures r == [] || r[0] !in cut
  {
    if |s| > 0 && s[0] in cut then TrimLeft(s[1..], cut) else s
  }

  /** `TrimLeft` keeps a suffix and drops only `cut` characters. */
  lemma {:induction false} TrimLeftIsSuffix(s: string, cut: set<char>)
    ensures var r := TrimLeft(s, cut);
      && r == s[|s| - |r|..]
      && forall i :: 0 <= i < |s| - |r| ==> s[i] in cut
  {
    if |s| > 0 && s[0] in cut {
      TrimLeftIsSuffix(s[1..], cut);
    }
  }

  /** Drops the trailing characters that belong to `cut`. */
  function TrimRight(s: string, cut: set<char>): (r: string)
    ensures |r| <= |s|
    ensures r == [] || r[|r| - 1] !in cut
  {
    if |s| > 0 && s[|s| - 1] in cut then TrimRight(s[..|s| - 1], cut) else s
  }

  /** `TrimRight` keeps a prefix and drops only `cut` characters. */
  lemma {:induction false} TrimRightIsPrefix(s: string, cut: set<char>)
    ensures var r := TrimRight(s, cut);
      && r == s[..|r|]
      && forall i :: |r| <= i < |s| ==> s[i] in cut
  {
    if |s| > 0 && s[|s| - 1] in cut {
      TrimRightIsPrefix(s[..|s| - 1], cut);
    }
  }

  /** `strings.Trim(s, cutset)`: strips `cut` characters from both ends. */
  function Trim(s: string, cut: set<char>): (r: string)
    ensures |r| <= |s|
    ensures r == [] || (r[0] !in cut && r[|r| - 1] !in cut)
  {
    var l := TrimLeft(s, cut);
    TrimRightIsPrefix(l, cut);
    TrimRight(l, cut)
  }

  /** `Trim` removes only `cut` characters: its result is the slice `s[i..i + |r|]`
      and everything outside that slice is in `cut`. */
  lemma TrimIsSlice(s: string, cut: set<char>) returns (i: nat)
    ensures var r := Trim(s, cut);
      && i + |r| <= |s| && r == s[i..i + |r|]
      && (forall k :: 0 <= k < i ==> s[k] in cut)
      && (forall k :: i + |r| <= k < |s| ==> s[k] in cut)
  {
    var l := TrimLeft(s, cut);
    var r := TrimRight(l, cut);
    i := |s| - |l|;
    TrimLeftIsSuffix(s, cut);
    TrimRightIsPrefix(l, cut);
    assert l == s[i..];
    forall k | i + |r| <= k < |s|
      ensures s[k] in cut
    {
      assert s[k] == l[k - i];
    }
  }

  /** A string that starts with a character outside `cut` loses nothing on the left. */
  lemma TrimLeftKeeps(s: string, cut: set<char>)
    requires |s| > 0 && s[0] !in cut
    ensures TrimLeft(s, cut) == s
  {
  }

  /** Trimming the left of `a + b` stops inside `a` when `a` holds a kept character. */
  lemma {:induction false} TrimLeftAppend(a: string, b: string, cut: set<char>, i: nat)
    requires i < |a| && a[i] !in cut
    ensures TrimLeft(a + b, cut) == TrimLeft(a, cut) + b
  {
    assert (a + b)[0] == a[0];
    if a[0] in cut {
      assert a[1..][i - 1] !in cut;
      TrimLeftAppend(a[1..], b, cut, i - 1);
      assert (a + b)[1..] == a[1..] + b;
      assert TrimLeft(a + b, cut) == TrimLeft((a + b)[1..], cut);
      assert TrimLeft(a, cut) == TrimLeft(a[1..], cut);
    } else {
      assert TrimLeft(a + b, cut) == a + b;
    }
  }

  /** Trimming the left of `a + b` skips all of `a` when `a` is made of `cut` characters. */
  lemma {:induction false} TrimLeftSkips(a: string, b: string, cut: set<char>)
    requires forall i :: 0 <= i < |a| ==> a[i] in cut
    ensures TrimLeft(a + b, cut) == TrimLeft(b, cut)
  {
    if |a| > 0 {
      TrimLeftSkips(a[1..], b, cut);
      assert (a + b)[1..] == a[1..] + b;
    } else {
      assert a + b == b;
    }
  }

  /** Trimming the right of `a + b` stops inside `b` when `b` ends in a kept character. */
  lemma TrimRightKeeps(a: string, b: string, cut: set<char>)
    requires |b| > 0 && b[|b| - 1] !in cut
    ensures TrimRight(a + b, cut) == a + b
  {
  }

  /** Trimming only the left of `x` that has no kept character leaves nothing. */
  lemma TrimLeftAllCut(x: string, cut: set<char>)
    requires forall i :: 0 <= i < |x| ==> x[i] in cut
    ensures TrimLeft(x, cut) == ""
  {
    TrimLeftSkips(x, "", cut);
    assert x + "" == x;
  }

  /** Dropping one trailing `cut` character does not change a right trim. */
  lemma TrimRightDropLast(t: string, c: char, cut: set<char>)
    requires c in cut
    ensures TrimRight(t + [c], cut) == TrimRight(t, cut)
  {
    assert (t + [c])[..|t|] == t;
  }

  /** Trimming `body + "\n"`, where `body` starts and ends with kept
      characters, removes just the newline. */
  lemma TrimBodyNewline(body: string, cut: set<char>)
    requires |body| > 0 && body[0] !in cut && body[|body| - 1] !in cut && '\n' in cut
    ensures Trim(body + "\n", cut) == body
  {
    assert (body + "\n")[0] == body[0];
    TrimLeftKeeps(body + "\n", cut);
    TrimRightDropLast(body, '\n', cut);
    assert "" + body == body;
    TrimRightKeeps("", body, cut);
  }

  /** Trimming statements closed by ";\n" keeps the ";" and drops the newline. */
  lemma TrimClosedStatements(j: string, cut: set<char>)
    requires |j| > 0 && j[0] !in cut && ';' !in cut && '\n' in cut
    ensures Trim(j + ";\n", cut) == j + ";"
  {
    var body := j + ";";
    assert body[0] == j[0] && body[|body| - 1] == ';';
    assert j + ";\n" == body + "\n";
    TrimBodyNewline(body, cut);
  }

  /** Trimming `x + body + "\n"`, where `body` starts and ends with kept
      characters: `x` is trimmed on the left and the newline goes. */
  lemma TrimAroundBody(x: string, body: string, cut: set<char>)
    requires |body| > 0 && body[0] !in cut && body[|body| - 1] !in cut && '\n' in cut
    ensures Trim(x + body + "\n", cut) == TrimLeft(x, cut) + body
  {
    var tail := body + "\n";
    assert x + body + "\n" == x + tail;
    if k :| 0 <= k < |x| && x[k] !in cut {
      TrimLeftAppend(x, tail, cut, k);
    } else {
      TrimLeftSkips(x, tail, cut);
      assert tail[0] == body[0];
      TrimLeftKeeps(tail, cut);
      TrimLeftAllCut(x, cut);
      assert TrimLeft(x, cut) + tail == tail;
    }
    var t := TrimLeft(x, cut) + body;
    assert TrimLeft(x, cut) + tail == t + "\n";
    TrimRightDropLast(t, '\n', cut);
    TrimRightKeeps(TrimLeft(x, cut), body, cut);
  }

  // ---------------------------------------------------------------------------
  // strings.Split and strings.Join
  // ---------------------------------------------------------------------------

  /** `strings.Split(s, string(sep))`: the pieces between separators, at least one. */
  function Split(s: string, sep: char): (r: seq<string>)
    ensures |r| >= 1
    ensures forall i :: 0 <= i < |r| ==> sep !in r[i]
    decreases |s|
  {
    if |s| == 0 then [""]
    else
      var rest := Split(s[1..], sep);
      if s[0] == sep then [""] + rest
      else [[s[0]] + rest[0]] + rest[1..]
  }

  /** `strings.Join(parts, sep)`. */
  function Join(parts: seq<string>, sep: string): string
  {
    if |parts| == 0 then ""
    else if |parts| == 1 then parts[0]
    else parts[0] + sep + Join(parts[1..], sep)
  }

  /** Joining the pieces of a split gives back the original string. */
  lemma {:induction false} JoinSplit(s: string, sep: char)
    ensures Join(Split(s, sep), [sep]) == s
    decreases |s|
  {
    if |s| > 0 {
      var rest := Split(s[1..], sep);
      JoinSplit(s[1..], sep);
      if s[0] == sep {
        assert Split(s, sep) == [""] + rest;
        assert ([""] + rest)[1..] == rest;
        assert s == [sep] + s[1..];
      } else {
        var r := Split(s, sep);
        assert r == [[s[0]] + rest[0]] + rest[1..];
        if |rest| == 1 {
          assert s == [s[0]] + s[1..];
        } else {
          assert r[1..] == rest[1..];
          assert Join(rest, [sep]) == rest[0] + [sep] + Join(rest[1..], [sep]);
          assert s == [s[0]] + s[1..];
        }
      }
    }
  }

  /** A piece free of the separator, followed by the separator, ends the first piece. */
  lemma {:induction false} SplitAfterPiece(a: string, b: string, sep: char)
    requires sep !in a
    ensures Split(a + [sep] + b, sep) == [a] + Split(b, sep)
    decreases |a|
  {
    if |a| == 0 {
      assert a + [sep] + b == [sep] + b;
      assert ([sep] + b)[1..] == b;
    } else {
      SplitAfterPiece(a[1..], b, sep);
      assert (a + [sep] + b)[1..] == a[1..] + [sep] + b;
      assert (a + [sep] + b)[0] == a[0];
      assert ([a[1..]] + Split(b, sep))[1..] == Split(b, sep);
      assert [a[0]] + a[1..] == a;
    }
  }

  /** A separator-free string splits into itself. */
  lemma {:induction false} SplitNoSeparator(a: string, sep: char)
    requires sep !in a
    ensures Split(a, sep) == [a]
    decreases |a|
  {
    if |a| > 0 {
      SplitNoSeparator(a[1..], sep);
      assert a == [a[0]] + a[1..];
    }
  }

  /** Splitting a join of separator-free pieces gives the pieces back. */
  lemma {:induction false} SplitJoin(parts: seq<string>, sep: char)
    requires |parts| >= 1
    requires forall i :: 0 <= i < |parts| ==> sep !in parts[i]
    ensures Split(Join(parts, [sep]), sep) == parts
  {
    if |parts| == 1 {
      SplitNoSeparator(parts[0], sep);
    } else {
      SplitJoin(parts[1..], sep);
      SplitAfterPiece(parts[0], Join(parts[1..], [sep]), sep);
      assert parts == [parts[0]] + parts[1..];
    }
  }

  // ---------------------------------------------------------------------------
  // strconv.Itoa and its inverse
  // ---------------------------------------------------------------------------

  predicate IsDigit(c: char) {
    '0' <= c <= '9'
  }

  predicate AllDigits(s: string) {
    forall i :: 0 <= i < |s| ==> IsDigit(s[i])
  }

  /** The value of a string of decimal digits, most significant first. */
  function DigitsValue(s: string): nat
    requires AllDigits(s)
  {
    if |s| == 0 then 0
    else DigitsValue(s[..|s| - 1]) * 10 + (s[|s| - 1] as int - '0' as int)
  }

  /** Decimal rendering of a natural number, without leading zeros. */
  function NatToDecimal(n: nat): (r: string)
    ensures |r| >= 1 && AllDigits(r)
    ensures r[0] == '0' ==> n == 0
  {
    if n < 10 then [(('0' as int) + n) as char]
    else NatToDecimal(n / 10) + [(('0' as int) + n % 10) as char]
  }

  /** `strconv.Itoa` and `%d`: an optional minus sign followed by decimal digits. */
  function Itoa(n: int): (r: string)
    ensures |r| >= 1
    ensures ':' !in r && '\n' !in r
  {
    if n < 0 then "-" + NatToDecimal(-n) else NatToDecimal(n)
  }

  /** Reads back an optionally negative decimal integer. */
  function ParseInt(s: string): Option<int>
  {
    if |s| > 1 && s[0] == '-' && AllDigits(s[1..]) then Some(-(DigitsValue(s[1..]) as int))
    else if |s| > 0 && AllDigits(s) then Some(DigitsValue(s))
    else None
  }

  lemma {:induction false} DigitsValueOfDecimal(n: nat)
    ensures DigitsValue(NatToDecimal(n)) == n
  {
    if n >= 10 {
      DigitsValueOfDecimal(n / 10);
      var r := NatToDecimal(n);
      assert r[..|r| - 1] == NatToDecimal(n / 10);
    }
  }

  /** `Itoa` is read back exactly by `ParseInt`. */
  lemma {:induction false} ItoaRoundTrip(n: int)
    ensures ParseInt(Itoa(n)) == Some(n)
  {
    var s := Itoa(n);
    if n < 0 {
      var d := NatToDecimal(-n);
      DigitsValueOfDecimal(-n);
      assert s == "-" + d;
      assert s[1..] == d;
      assert ParseInt(s) == Some(-(DigitsValue(d) as int));
    } else {
      var d := NatToDecimal(n);
      DigitsValueOfDecimal(n);
      assert s == d && IsDigit(s[0]);
      assert ParseInt(s) == Some(DigitsValue(d));
    }
  }

  // ---------------------------------------------------------------------------
  // Searching
  // ---------------------------------------------------------------------------

  /** The position of the last `c` in `s`, if any. */
  function LastIndex(s: string, c: char): (r: Option<nat>)
    ensures r.Some? ==> r.value < |s| && s[r.value] == c && c !in s[r.value + 1..]
    ensures r.None? ==> c !in s
  {
    if |s| == 0 then None
    else if s[|s| - 1] == c then Some(|s| - 1)
    else
      var r := LastIndex(s[..|s| - 1], c);
      assert s == s[..|s| - 1] + [s[|s| - 1]];
      if r.Some? then
        assert s[r.value + 1..] == s[..|s| - 1][r.value + 1..] + [s[|s| - 1]];
        r
      else r
  }

  /** The last `c` of `a + [c] + b` is the one between them when `b` has none. */
  lemma {:induction false} LastIndexBefore(a: string, c: char, b: string)
    requires c !in b
    ensures LastIndex(a + [c] + b, c) == Some(|a|)
  {
    if |b| > 0 {
      var s := a + [c] + b;
      assert s[|s| - 1] == b[|b| - 1];
      assert s[..|s| - 1] == a + [c] + b[..|b| - 1];
      LastIndexBefore(a, c, b[..|b| - 1]);
    }
  }

}
