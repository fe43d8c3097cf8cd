/**
  The global output flags and the string helpers of cmd/root.go: the
  hand-written comma splitter and space/tab trimmer, the `--fields` parser,
  and the translation of flags into output options.
*/
module CmdRoot {
  import opened Text
  import opened OutputRender

  // ---------------------------------------------------------------------------
  // splitComma and trimSpace
  // ---------------------------------------------------------------------------

  lemma PrependNothing(pieces: seq<string>)
    requires |pieces| > 0
    ensures PrependToFirst("", pieces) == pieces
  {
    assert "" + pieces[0] == pieces[0];
  }

  /**
    `splitComma`: the text between commas, scanning once and starting a new
    piece at every comma.
  */
  method SplitComma(s: string) returns (result: seq<string>)
    ensures result == SplitOn(s, ',')
    ensures |result| == Count(s, ',') + 1
    ensures forall k | 0 <= k < |result| :: ',' !in result[k]
    ensures Join(result, ",") == s
  {
    result := [];
    var current := "";
    var i := 0;
    assert s[0..] == s;
    PrependNothing(SplitOn(s, ','));
    while i < |s|
      invariant 0 <= i <= |s|
      invariant SplitOn(s, ',') == result + PrependToFirst(current, SplitOn(s[i..], ','))
    {
      var rest := SplitOn(s[i + 1..], ',');
      assert s[i..][1..] == s[i + 1..];
      if s[i] == ',' {
        assert SplitOn(s[i..], ',') == [""] + rest;
        PrependNothing(rest);
        assert PrependToFirst(current, [""] + rest) == [current + ""] + rest;
        assert current + "" == current;
        assert result + PrependToFirst(current, [""] + rest) == (result + [current]) + PrependToFirst("", rest);
        result := result + [current];
        current := "";
      } else {
        assert SplitOn(s[i..], ',') == [[s[i]] + rest[0]] + rest[1..];
        assert current + ([s[i]] + rest[0]) == (current + [s[i]]) + rest[0];
        current := current + [s[i]];
      }
      i := i + 1;
    }
    assert s[i..] == "";
    assert PrependToFirst(current, [""]) == [current + ""];
    assert current + "" == current;
    result := result + [current];
    JoinSplit(s, ',');
  }

  /** The two characters `trimSpace` removes. */
  predicate IsBlank(c: char) { c == ' ' || c == '\t' }

  /** The first loop of `trimSpace`: drop leading spaces and tabs. */
  method TrimLeading(s: string) returns (t: string)
    ensures t == TrimLeft(s, IsBlank)
  {
    t := s;
    while |t| > 0 && IsBlank(t[0])
      invariant TrimLeft(t, IsBlank) == TrimLeft(s, IsBlank)
    {
      t := t[1..];
    }
  }

  /** The second loop of `trimSpace`: drop trailing spaces and tabs. */
  method TrimTrailing(s: string) returns (t: string)
    ensures t == TrimRight(s, IsBlank)
  {
    t := s;
    while |t| > 0 && IsBlank(t[|t| - 1])
      invariant TrimRight(t, IsBlank) == TrimRight(s, IsBlank)
    {
      t := t[..|t| - 1];
    }
  }

  /** `trimSpace`: strip spaces and tabs from the front, then from the back. */
  method TrimSpace(s: string) returns (t: string)
    ensures t == Trim(s, IsBlank)
    ensures |t| > 0 ==> !IsBlank(t[0]) && !IsBlank(t[|t| - 1])
  {
    var left := TrimLeading(s);
    t := TrimTrailing(left);
    if |t| > 0 {
      assert t[0] == left[0];
    }
  }

  // ---------------------------------------------------------------------------
  // Non-empty trimmed pieces
  // ---------------------------------------------------------------------------

  /** `t` is non-empty and starts and ends with a character `cut` keeps. */
  predicate Clean(t: string, cut: char -> bool)
  {
    t != "" && !cut(t[0]) && !cut(t[|t| - 1])
  }

  /** A piece that trims to something non-empty trims to a clean one. */
  lemma TrimClean(s: string, cut: char -> bool)
    requires Trim(s, cut) != ""
    ensures Clean(Trim(s, cut), cut)
  {
    TrimEnds(s, cut);
  }

  /** A clean piece in front of clean pieces keeps them all clean. */
  lemma CleanCons(t: string, rest: seq<string>, cut: char -> bool)
    requires Clean(t, cut)
    requires forall k | 0 <= k < |rest| :: Clean(rest[k], cut)
    ensures forall k | 0 <= k < |[t] + rest| :: Clean(([t] + rest)[k], cut)
  {
    forall k | 0 <= k < |[t] + rest| ensures Clean(([t] + rest)[k], cut) {
      if k > 0 {
        assert ([t] + rest)[k] == rest[k - 1];
      }
    }
  }

  /** The pieces after the first of clean pieces are clean. */
  lemma CleanTail(pieces: seq<string>, cut: char -> bool)
    requires |pieces| > 0
    requires forall k | 0 <= k < |pieces| :: Clean(pieces[k], cut)
    ensures forall k | 0 <= k < |pieces[1..]| :: Clean(pieces[1..][k], cut)
  {
    forall k | 0 <= k < |pieces[1..]| ensures Clean(pieces[1..][k], cut) {
      assert pieces[1..][k] == pieces[k + 1];
    }
  }

  /**
    The pieces trimmed by `cut`, in order, with those that trim to nothing
    dropped: the loop shared by `splitFields` and `splitAndTrim`.
  */
  function NonEmptyTrimmed(pieces: seq<string>, cut: char -> bool): (r: seq<string>)
    ensures |r| <= |pieces|
    ensures forall k | 0 <= k < |r| :: Clean(r[k], cut)
  {
    if |pieces| == 0 then []
    else
      var t := Trim(pieces[0], cut);
      var rest := NonEmptyTrimmed(pieces[1..], cut);
      if t == "" then rest
      else
        TrimClean(pieces[0], cut);
        CleanCons(t, rest, cut);
        [t] + rest
  }

  /** Some piece maps to `x` under `f` exactly when the first does or some later one does. */
  lemma SomePieceMapsTo(pieces: seq<string>, f: string -> string, x: string)
    requires |pieces| > 0
    ensures (exists k | 0 <= k < |pieces| :: f(pieces[k]) == x)
        <==> f(pieces[0]) == x || exists k | 0 <= k < |pieces[1..]| :: f(pieces[1..][k]) == x
  {
    var tail := pieces[1..];
    if exists k | 0 <= k < |pieces| :: f(pieces[k]) == x {
      var k :| 0 <= k < |pieces| && f(pieces[k]) == x;
      if k > 0 {
        assert tail[k - 1] == pieces[k];
      }
    }
    if exists k | 0 <= k < |tail| :: f(tail[k]) == x {
      var k :| 0 <= k < |tail| && f(tail[k]) == x;
      assert pieces[k + 1] == tail[k];
    }
  }

  /** A value occurs in the result exactly when it is a non-empty trimmed piece. */
  lemma {:induction false} NonEmptyTrimmedMembers(pieces: seq<string>, cut: char -> bool, x: string)
    ensures x in NonEmptyTrimmed(pieces, cut) <==> x != "" && exists k | 0 <= k < |pieces| :: Trim(pieces[k], cut) == x
    decreases |pieces|
  {
    if |pieces| > 0 {
      NonEmptyTrimmedMembers(pieces[1..], cut, x);
      SomePieceMapsTo(pieces, s => Trim(s, cut), x);
      var t := Trim(pieces[0], cut);
      assert NonEmptyTrimmed(pieces, cut) == (if t != "" then [t] else []) + NonEmptyTrimmed(pieces[1..], cut);
    }
  }

  /** Pieces that are already trimmed and non-empty come back unchanged. */
  lemma {:induction false} NonEmptyTrimmedKeeps(pieces: seq<string>, cut: char -> bool)
    requires forall k | 0 <= k < |pieces| :: Clean(pieces[k], cut)
    ensures NonEmptyTrimmed(pieces, cut) == pieces
    decreases |pieces|
  {
    if |pieces| > 0 {
      var p := pieces[0];
      var tail := pieces[1..];
      assert Clean(p, cut);
      TrimFixed(p, cut);
      CleanTail(pieces, cut);
      NonEmptyTrimmedKeeps(tail, cut);
      assert NonEmptyTrimmed(pieces, cut) == [p] + tail;
      assert pieces == [p] + tail;
    }
  }

  /** Pieces made only of `cut` characters all vanish. */
  lemma {:induction false} NonEmptyTrimmedBlank(pieces: seq<string>, cut: char -> bool)
    requires forall k, j | 0 <= k < |pieces| && 0 <= j < |pieces[k]| :: cut(pieces[k][j])
    ensures NonEmptyTrimmed(pieces, cut) == []
    decreases |pieces|
  {
    if |pieces| > 0 {
      TrimEmpty(pieces[0], cut);
      NonEmptyTrimmedBlank(pieces[1..], cut);
    }
  }

  /** `NonEmptyTrimmed` of the comma-split text: the common body of the two field parsers. */
  function SplitTrimmed(s: string, cut: char -> bool): seq<string>
  {
    NonEmptyTrimmed(SplitOn(s, ','), cut)
  }

  /**
    Writing trimmed, non-empty, comma-free items separated by commas and
    parsing the text back gives the items.
  */
  lemma SplitTrimmedRoundTrip(items: seq<string>, cut: char -> bool)
    requires forall k | 0 <= k < |items| :: items[k] != "" && ',' !in items[k]
    requires forall k | 0 <= k < |items| :: !cut(items[k][0]) && !cut(items[k][|items[k]| - 1])
    ensures SplitTrimmed(Join(items, ","), cut) == items
  {
    if |items| == 0 {
      assert SplitOn("", ',') == [""];
      assert Trim("", cut) == "";
    } else {
      SplitJoin(items, ',');
      forall k | 0 <= k < |items| ensures Clean(items[k], cut) {
      }
      NonEmptyTrimmedKeeps(items, cut);
    }
  }

  /** Text holding only commas and `cut` characters yields no items. */
  lemma SplitTrimmedBlank(s: string, cut: char -> bool)
    requires forall j | 0 <= j < |s| :: s[j] == ',' || cut(s[j])
    ensures SplitTrimmed(s, cut) == []
  {
    var pieces := SplitOn(s, ',');
    JoinSplit(s, ',');
    forall k, j | 0 <= k < |pieces| && 0 <= j < |pieces[k]| ensures cut(pieces[k][j]) {
      JoinedPieceChar(pieces, k, j);
    }
    NonEmptyTrimmedBlank(pieces, cut);
  }

  /** A character of a piece is a character of the comma-joined text. */
  lemma {:induction false} JoinedPieceChar(pieces: seq<string>, k: nat, j: nat)
    requires k < |pieces| && j < |pieces[k]|
    ensures pieces[k][j] in Join(pieces, ",")
    decreases |pieces|
  {
    if |pieces| > 1 {
      var tail := Join(pieces[1..], ",");
      assert Join(pieces, ",") == pieces[0] + "," + tail;
      if k == 0 {
        assert Join(pieces, ",")[j] == pieces[0][j];
      } else {
        JoinedPieceChar(pieces[1..], k - 1, j);
        var p :| 0 <= p < |tail| && tail[p] == pieces[k][j];
        assert Join(pieces, ",")[|pieces[0]| + 1 + p] == tail[p];
      }
    }
  }

  /** `splitFields`: the `--fields` value as field names. */
  function SplitFields(s: string): (fields: seq<string>)
    ensures forall k | 0 <= k < |fields| :: fields[k] != "" && Trim(fields[k], IsBlank) == fields[k]
  {
    var r := SplitTrimmed(s, IsBlank);
    forall k | 0 <= k < |r| ensures Trim(r[k], IsBlank) == r[k] {
      TrimFixed(r[k], IsBlank);
    }
    r
  }

  // ---------------------------------------------------------------------------
  // Flags to options
  // ---------------------------------------------------------------------------

  /** The global and per-command output flags. */
  datatype Flags = Flags(json: bool, plaintext: bool, noColor: bool, debug: bool, fields: string, jq: string)

  /** `GetOutputOptions`: the mode chosen by the flags, colour and debug copied, no fields, no jq. */
  function GetOutputOptions(f: Flags): (o: Options)
    ensures o.mode.JsonMode? <==> f.json
    ensures o.mode.Plaintext? <==> !f.json && f.plaintext
    ensures o.mode.Table? <==> !f.json && !f.plaintext
    ensures o.noColor == f.noColor && o.debug == f.debug
    ensures o.fields == [] && o.jqExpr == ""
  {
    var mode := if f.json then JsonMode else if f.plaintext then Plaintext else Table;
    Options(mode, f.noColor, f.debug, [], "")
  }

  /** `getOutputOpts`: the same, plus the parsed `--fields` and the verbatim `--jq`. */
  function GetOutputOpts(f: Flags): (o: Options)
    ensures o.mode == GetOutputOptions(f).mode && o.noColor == f.noColor && o.debug == f.debug
    ensures o.jqExpr == f.jq
    ensures f.fields == "" ==> o.fields == []
    ensures f.fields != "" ==> o.fields == SplitFields(f.fields)
  {
    var base := GetOutputOptions(f);
    base.(fields := if f.fields != "" then SplitFields(f.fields) else [], jqExpr := f.jq)
  }

  /** `--json` wins over `--plaintext`. */
  lemma JsonWins(f: Flags)
    requires f.json
    ensures GetOutputOpts(f).mode == GetOutputOpts(f.(plaintext := !f.plaintext)).mode == JsonMode
  {
  }

  /** Field names given as `a, b,,c ` come back as the trimmed, non-empty names in order. */
  lemma FieldsFlagRoundTrip(names: seq<string>, f: Flags)
    requires forall k | 0 <= k < |names| :: names[k] != "" && ',' !in names[k]
    requires forall k | 0 <= k < |names| :: !IsBlank(names[k][0]) && !IsBlank(names[k][|names[k]| - 1])
    requires f.fields == Join(names, ",")
    ensures GetOutputOpts(f).fields == names
  {
    SplitTrimmedRoundTrip(names, IsBlank);
  }
}
