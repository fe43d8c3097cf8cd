/**
  String helpers shared by the transport, the renderer and the command layer:
  joining and splitting on a separator, trimming, decimal rendering of integers,
  truncation and substring search.
*/
module Text {
  import opened Results

  // ---------------------------------------------------------------------------
  // Joining and splitting
  // ---------------------------------------------------------------------------

  /** `parts` with `sep` between neighbours, as Go's strings.Join. */
  function Join(parts: seq<string>, sep: string): string
  {
    if |parts| == 0 then ""
    else if |parts| == 1 then parts[0]
    else parts[0] + sep + Join(parts[1..], sep)
  }

  /** Number of occurrences of `c` in `s`. */
  function Count(s: string, c: char): nat
  {
    if |s| == 0 then 0 else (if s[0] == c then 1 else 0) + Count(s[1..], c)
  }

  lemma {:induction false} CountAppend(a: string, b: string, c: char)
    ensures Count(a + b, c) == Count(a, c) + Count(b, c)
  {
    if |a| > 0 {
      assert (a + b)[1..] == a[1..] + b;
      CountAppend(a[1..], b, c);
    } else {
      assert a + b == b;
    }
  }

  lemma {:induction false} CountAbsent(s: string, c: char)
    ensures Count(s, c) == 0 <==> c !in s
  {
    if |s| > 0 {
      CountAbsent(s[1..], c);
      assert s == [s[0]] + s[1..];
    }
  }

  /**
    The pieces between occurrences of `sep`, as Go's strings.Split with a
    one-character separator: the empty string gives one empty piece, and
    neighbouring separators give an empty piece between them.
  */
  function SplitOn(s: string, sep: char): (pieces: seq<string>)
    ensures |pieces| == Count(s, sep) + 1
    ensures forall i | 0 <= i < |pieces| :: sep !in pieces[i]
  {
    if |s| == 0 then [""]
    else
      var rest := SplitOn(s[1..], sep);
      if s[0] == sep then [""] + rest
      else [[s[0]] + rest[0]] + rest[1..]
  }

  /** Extends the first piece of `pieces` on the left by `prefix`. */
  function PrependToFirst(prefix: string, pieces: seq<string>): seq<string>
    requires |pieces| > 0
  {
    [prefix + pieces[0]] + pieces[1..]
  }

  /** Joining the pieces back with the separator gives the original text. */
  lemma {:induction false} JoinSplit(s: string, sep: char)
    ensures Join(SplitOn(s, sep), [sep]) == s
  {
    if |s| > 0 {
      var rest := SplitOn(s[1..], sep);
      JoinSplit(s[1..], sep);
      if s[0] == sep {
        assert SplitOn(s, sep) == [""] + rest;
        assert ([""] + rest)[1..] == rest;
        assert s == [sep] + s[1..];
      } else if |rest| == 1 {
        assert SplitOn(s, sep) == [[s[0]] + rest[0]];
        assert s == [s[0]] + s[1..];
      } else {
        var pieces := [[s[0]] + rest[0]] + rest[1..];
        assert SplitOn(s, sep) == pieces;
        assert pieces[1..] == rest[1..];
        assert Join(rest, [sep]) == rest[0] + [sep] + Join(rest[1..], [sep]);
        assert s == [s[0]] + s[1..];
      }
    }
  }

  /** Splitting text that holds no separator gives it back as the only piece. */
  lemma {:induction false} SplitWithoutSeparator(a: string, sep: char)
    requires sep !in a
    ensures SplitOn(a, sep) == [a]
  {
    if |a| > 0 {
      SplitWithoutSeparator(a[1..], sep);
      assert a == [a[0]] + a[1..];
    }
  }

  /** A separator-free prefix only extends the first piece. */
  lemma {:induction false} SplitAppend(a: string, b: string, sep: char)
    requires sep !in a
    ensures SplitOn(a + b, sep) == PrependToFirst(a, SplitOn(b, sep))
  {
    if |a| > 0 {
      SplitAppend(a[1..], b, sep);
      var pieces := SplitOn(b, sep);
      var rest := SplitOn((a + b)[1..], sep);
      assert (a + b)[1..] == a[1..] + b;
      assert (a + b)[0] == a[0];
      assert rest == [a[1..] + pieces[0]] + pieces[1..];
      assert SplitOn(a + b, sep) == [[a[0]] + rest[0]] + rest[1..];
      assert [a[0]] + (a[1..] + pieces[0]) == a + pieces[0];
    } else {
      var pieces := SplitOn(b, sep);
      assert a + b == b;
      assert a + pieces[0] == pieces[0];
      assert PrependToFirst(a, pieces) == [pieces[0]] + pieces[1..] == pieces;
    }
  }

  /** Splitting a join of separator-free pieces gives the pieces back. */
  lemma {:induction false} SplitJoin(parts: seq<string>, sep: char)
    requires |parts| >= 1
    requires forall i | 0 <= i < |parts| :: sep !in parts[i]
    ensures SplitOn(Join(parts, [sep]), sep) == parts
  {
    if |parts| == 1 {
      SplitWithoutSeparator(parts[0], sep);
    } else {
      SplitJoin(parts[1..], sep);
      var tail := Join(parts[1..], [sep]);
      assert Join(parts, [sep]) == parts[0] + ([sep] + tail);
      SplitAppend(parts[0], [sep] + tail, sep);
      assert ([sep] + tail)[1..] == tail;
      assert SplitOn([sep] + tail, sep) == [""] + parts[1..];
      assert parts[0] + "" == parts[0];
      assert PrependToFirst(parts[0], [""] + parts[1..]) == [parts[0]] + parts[1..] == parts;
    }
  }

  // ---------------------------------------------------------------------------
  // Trimming
  // ---------------------------------------------------------------------------

  /** `s` without its longest prefix of characters satisfying `cut`. */
  function TrimLeft(s: string, cut: char -> bool): (r: string)
    ensures |r| <= |s| && r == s[|s| - |r|..]
    ensures |r| > 0 ==> !cut(r[0])
    ensures forall k | 0 <= k < |s| - |r| :: cut(s[k])
  {
    if |s| > 0 && cut(s[0]) then TrimLeft(s[1..], cut) else s
  }

  /** `s` without its longest suffix of characters satisfying `cut`. */
  function TrimRight(s: string, cut: char -> bool): (r: string)
    ensures |r| <= |s| && r == s[..|r|]
    ensures |r| > 0 ==> !cut(r[|r| - 1])
    ensures forall k | |r| <= k < |s| :: cut(s[k])
  {
    if |s| > 0 && cut(s[|s| - 1]) then TrimRight(s[..|s| - 1], cut) else s
  }

  /** `s` without leading and trailing characters satisfying `cut`. */
  function Trim(s: string, cut: char -> bool): string
  {
    TrimRight(TrimLeft(s, cut), cut)
  }

  /** Trimming leaves no `cut` character at either end. */
  lemma TrimEnds(s: string, cut: char -> bool)
    ensures |Trim(s, cut)| > 0 ==> !cut(Trim(s, cut)[0]) && !cut(Trim(s, cut)[|Trim(s, cut)| - 1])
  {
    var l := TrimLeft(s, cut);
    var r := TrimRight(l, cut);
    assert Trim(s, cut) == r;
    if |r| > 0 {
      assert r == l[..|r|];
      assert r[0] == l[0];
      assert !cut(l[0]);
    }
  }

  /**
    Trimming keeps one contiguous block of `s`, removes only `cut` characters,
    and leaves no `cut` character at either end.
  */
  lemma TrimShape(s: string, cut: char -> bool)
    ensures exists a: nat, b: nat | a <= b <= |s| ::
      && Trim(s, cut) == s[a..b]
      && (forall k | 0 <= k < a :: cut(s[k]))
      && (forall k | b <= k < |s| :: cut(s[k]))
    ensures |Trim(s, cut)| > 0 ==> !cut(Trim(s, cut)[0]) && !cut(Trim(s, cut)[|Trim(s, cut)| - 1])
  {
    var l := TrimLeft(s, cut);
    var a := |s| - |l|;
    var r := TrimRight(l, cut);
    var b := a + |r|;
    assert r == l[..|r|] == s[a..b];
    forall k | b <= k < |s| ensures cut(s[k]) {
      assert s[k] == l[k - a];
    }
    if |r| > 0 {
      assert r[0] == l[0];
    }
  }

  /** Text that begins and ends with a kept character is its own trimming. */
  lemma TrimFixed(s: string, cut: char -> bool)
    requires |s| > 0 ==> !cut(s[0]) && !cut(s[|s| - 1])
    ensures Trim(s, cut) == s
  {
  }

  /** Trimming twice is trimming once. */
  lemma TrimIdempotent(s: string, cut: char -> bool)
    ensures Trim(Trim(s, cut), cut) == Trim(s, cut)
  {
    TrimShape(s, cut);
    TrimFixed(Trim(s, cut), cut);
  }

  /** Trimming leaves nothing exactly when every character is cut. */
  lemma TrimEmpty(s: string, cut: char -> bool)
    ensures Trim(s, cut) == "" <==> forall k | 0 <= k < |s| :: cut(s[k])
  {
    var l := TrimLeft(s, cut);
    var a := |s| - |l|;
    assert |l| > 0 ==> l[0] == s[a];
    assert Trim(s, cut) == "" ==> l == "";
  }

  // ---------------------------------------------------------------------------
  // Decimal rendering of integers (Go's %d) and its parser (strconv.ParseInt)
  // ---------------------------------------------------------------------------

  predicate IsDigit(c: char) { '0' <= c <= '9' }

  predicate AllDigits(s: string) { forall i | 0 <= i < |s| :: IsDigit(s[i]) }

  function DigitChar(d: nat): (c: char)
    requires d < 10
    ensures IsDigit(c)
  {
    ('0' as int + d) as char
  }

  /** The shortest decimal numeral of `n`. */
  function NatDigits(n: nat): (r: string)
    ensures |r| >= 1 && AllDigits(r)
  {
    if n < 10 then [DigitChar(n)] else NatDigits(n / 10) + [DigitChar(n % 10)]
  }

  /** The value of a numeral made of decimal digits. */
  function DigitsValue(s: string): nat
    requires AllDigits(s)
  {
    if |s| == 0 then 0 else DigitsValue(s[..|s| - 1]) * 10 + (s[|s| - 1] as int - '0' as int)
  }

  /** Go's `%d` rendering of an integer. */
  function Decimal(i: int): (r: string)
    ensures |r| >= 1
    ensures forall k | 0 <= k < |r| :: IsDigit(r[k]) || r[k] == '-'
  {
    if i < 0 then "-" + NatDigits(-i) else NatDigits(i)
  }

  /** An optional minus sign followed by at least one digit, read base 10. */
  function ParseDecimal(s: string): Option<int>
  {
    if |s| > 0 && s[0] == '-' then
      if |s| > 1 && AllDigits(s[1..]) then Some(0 - DigitsValue(s[1..]) as int) else None
    else if |s| > 0 && AllDigits(s) then Some(DigitsValue(s))
    else None
  }

  lemma {:induction false} NatDigitsValue(n: nat)
    ensures DigitsValue(NatDigits(n)) == n
  {
    if n >= 10 {
      NatDigitsValue(n / 10);
      var r := NatDigits(n);
      assert r[..|r| - 1] == NatDigits(n / 10);
    }
  }

  /** Reading back a rendered integer gives the integer. */
  lemma DecimalRoundTrip(i: int)
    ensures ParseDecimal(Decimal(i)) == Some(i)
  {
    if i < 0 {
      NatDigitsValue(-i);
      assert Decimal(i)[1..] == NatDigits(-i);
    } else {
      NatDigitsValue(i);
    }
  }

  // ---------------------------------------------------------------------------
  // Searching and truncating
  // ---------------------------------------------------------------------------

  /** The position of the first `c` in `s`, as Go's strings.Index with a one-character needle. */
  function FirstIndex(s: string, c: char): (r: Option<nat>)
    ensures r.Some? ==> r.value < |s| && s[r.value] == c && c !in s[..r.value]
    ensures r.None? ==> c !in s
  {
    if |s| == 0 then None
    else if s[0] == c then Some(0)
    else match FirstIndex(s[1..], c)
      case None => None
      case Some(i) => Some(i + 1)
  }

  /** The first occurrence is determined by the text before it. */
  lemma {:induction false} FirstIndexAt(s: string, c: char, i: nat)
    requires i < |s| && s[i] == c && c !in s[..i]
    ensures FirstIndex(s, c) == Some(i)
  {
    if i > 0 {
      assert s[0] == s[..i][0];
      assert s[1..][..i - 1] == s[..i][1..];
      FirstIndexAt(s[1..], c, i - 1);
    }
  }

  /** `s` cut to `max` characters with "..." appended when it was longer, as `truncate`. */
  function Truncate(s: string, max: nat): (r: string)
    ensures |s| <= max ==> r == s
    ensures |s| > max ==> |r| == max + 3 && r[..max] == s[..max] && r[max..] == "..."
  {
    if |s| <= max then s else s[..max] + "..."
  }

  /** `t` occurs in `s` starting at index `i`. */
  predicate InfixAt(s: string, t: string, i: nat)
  {
    i + |t| <= |s| && s[i..i + |t|] == t
  }

  /** `t` occurs somewhere in `s`, as Go's strings.Contains. */
  predicate Contains(s: string, t: string)
  {
    exists i: nat | i <= |s| :: InfixAt(s, t, i)
  }

  lemma ContainsMiddle(a: string, t: string, b: string)
    ensures Contains(a + t + b, t)
  {
    assert (a + t + b)[|a|..|a| + |t|] == t;
    assert InfixAt(a + t + b, t, |a|);
  }

  /** Both the middle and the last of three texts occur in their concatenation. */
  lemma ContainsSecondAndThird(a: string, t: string, u: string)
    ensures Contains(a + t + u, t) && Contains(a + t + u, u)
  {
    ContainsMiddle(a, t, u);
    ContainsMiddle(a + t, u, "");
    assert a + t + u + "" == a + t + u;
  }
}
