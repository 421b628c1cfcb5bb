/**
 * `re.split` of a whole SRT document into blocks, for the two separators the
 * parsers use, and the facts that let a written document be split back into
 * the blocks it was written from.
 */
module Blocks {
  import opened Text

  /** The two block separators found in the parsers. */
  datatype Separator =
    | NewlineRun  // `\n\n+`: two or more consecutive newlines
    | BlankLine   // `\n\s*\n`: a newline, whitespace, and a last newline inside it

  /** The number of newlines at the start of `t`. */
  function LeadingNewlines(t: string): (k: nat)
    ensures k <= |t|
    ensures forall i :: 0 <= i < k ==> t[i] == '\n'
    ensures k == |t| || t[k] != '\n'
    decreases |t|
  {
    if |t| > 0 && t[0] == '\n' then 1 + LeadingNewlines(t[1..]) else 0
  }

  /** The number of whitespace characters at the start of `t`. */
  function LeadingSpaces(t: string): (k: nat)
    ensures k <= |t|
    ensures forall i :: 0 <= i < k ==> IsSpace(t[i])
    ensures k == |t| || !IsSpace(t[k])
    decreases |t|
  {
    if |t| > 0 && IsSpace(t[0]) then 1 + LeadingSpaces(t[1..]) else 0
  }

  /** The index of the last newline of `u`, or -1 when it has none. */
  function LastNewline(u: string): (q: int)
    ensures -1 <= q < |u|
    ensures q >= 0 ==> u[q] == '\n'
    ensures forall i :: q < i < |u| ==> u[i] != '\n'
    decreases |u|
  {
    if |u| == 0 then -1
    else if u[|u| - 1] == '\n' then |u| - 1
    else LastNewline(u[..|u| - 1])
  }

  /**
   * The length of the separator's match at the start of `t`, 0 when it does
   * not match there. Both matches start and end with a newline.
   */
  function SepAt(p: Separator, t: string): (n: nat)
    ensures n <= |t|
    ensures n > 0 ==> n >= 2 && t[0] == '\n' && t[n - 1] == '\n'
  {
    match p
    case NewlineRun =>
      var k := LeadingNewlines(t);
      if k >= 2 then k else 0
    case BlankLine =>
      if |t| == 0 || t[0] != '\n' then 0
      else
        var k := LeadingSpaces(t[1..]);
        var q := LastNewline(t[1..1 + k]);
        if q < 0 then 0 else q + 2
  }

  /**
   * Scans `s` left to right, taking a separator match wherever one starts;
   * `acc` is the piece read so far. This is `re.split` for patterns that
   * cannot match the empty string.
   */
  function SplitAcc(p: Separator, s: string, acc: string): (r: seq<string>)
    ensures |r| >= 1
    decreases |s|
  {
    if |s| == 0 then [acc]
    else
      var n := SepAt(p, s);
      if n > 0 then [acc] + SplitAcc(p, s[n..], "")
      else SplitAcc(p, s[1..], acc + [s[0]])
  }

  /** `re.split(pattern, s)`. */
  function RegexSplit(p: Separator, s: string): (r: seq<string>)
    ensures |r| >= 1
  {
    SplitAcc(p, s, "")
  }

  /** Every newline of `b` is followed, inside `b`, by a non-whitespace character. */
  predicate Solid(b: string)
  {
    forall j :: 0 <= j < |b| && b[j] == '\n' ==> j + 1 < |b| && !IsSpace(b[j + 1])
  }

  /** A block that can stand between blank-line separators: solid, non-empty, not padded. */
  predicate WellFormedBlock(b: string)
  {
    |b| > 0 && !IsSpace(b[0]) && !IsSpace(b[|b| - 1]) && Solid(b)
  }

  /** No separator starts inside a solid piece, whatever follows it. */
  lemma NoSepInside(p: Separator, a: string, r: string, j: nat)
    requires Solid(a) && j < |a|
    ensures SepAt(p, (a + r)[j..]) == 0
  {
    var t := (a + r)[j..];
    if t[0] == '\n' {
      assert t[1] == a[j + 1];
      match p
      case NewlineRun =>
        assert LeadingNewlines(t) == 1 by {
          assert LeadingNewlines(t[1..]) == 0;
        }
      case BlankLine =>
        assert LeadingSpaces(t[1..]) == 0;
        assert LastNewline(t[1..1]) == -1;
    }
  }

  /** Reading a piece in which no separator starts only extends the current piece. */
  lemma {:induction false} SplitPlain(p: Separator, a: string, r: string, acc: string)
    requires forall j :: 0 <= j < |a| ==> SepAt(p, (a + r)[j..]) == 0
    ensures SplitAcc(p, a + r, acc) == SplitAcc(p, r, acc + a)
    decreases |a|
  {
    if |a| > 0 {
      var s := a + r;
      assert SepAt(p, s[0..]) == 0;
      assert s[0..] == s;
      assert s[1..] == a[1..] + r;
      forall j | 0 <= j < |a[1..]| ensures SepAt(p, (a[1..] + r)[j..]) == 0 {
        assert (a[1..] + r)[j..] == s[j + 1..];
      }
      SplitPlain(p, a[1..], r, acc + [s[0]]);
      assert acc + [s[0]] + a[1..] == acc + a;
    } else {
      assert a + r == r && acc + a == acc;
    }
  }

  /** A blank line written as `\n\n` before a non-blank character is exactly one separator match. */
  lemma SepOfBlankLine(p: Separator, b: string)
    requires |b| == 0 || !IsSpace(b[0])
    ensures SepAt(p, "\n\n" + b) == 2
  {
    var t := "\n\n" + b;
    match p
    case NewlineRun =>
      assert t[2..] == b;
      assert LeadingNewlines(t[2..]) == 0;
      assert LeadingNewlines(t[1..]) == 1;
    case BlankLine =>
      assert t[1..] == "\n" + b;
      assert LeadingSpaces(t[1..]) == 1 by {
        assert (t[1..])[1..] == b;
        assert LeadingSpaces(b) == 0;
      }
      assert t[1..2] == "\n";
  }

  /** Splitting blocks joined by blank lines gives the blocks back. */
  lemma {:induction false} SplitJoined(p: Separator, bs: seq<string>)
    requires |bs| >= 1
    requires forall i :: 0 <= i < |bs| ==> WellFormedBlock(bs[i])
    ensures RegexSplit(p, Join(bs, "\n\n")) == bs
    decreases |bs|
  {
    var b := bs[0];
    assert WellFormedBlock(b);
    if |bs| == 1 {
      SplitSolid(p, b, "");
      assert b + "" == b;
    } else {
      var rest := Join(bs[1..], "\n\n");
      assert Join(bs, "\n\n") == b + ("\n\n" + rest);
      JoinStartsSolid(bs[1..]);
      SplitBlockCons(p, b, rest);
      SplitJoined(p, bs[1..]);
      assert [b] + bs[1..] == bs;
    }
  }

  /** Reading a solid piece from the start only collects it. */
  lemma SplitSolid(p: Separator, b: string, r: string)
    requires Solid(b)
    ensures SplitAcc(p, b + r, "") == SplitAcc(p, r, b)
  {
    forall j | 0 <= j < |b| ensures SepAt(p, (b + r)[j..]) == 0 {
      NoSepInside(p, b, r, j);
    }
    SplitPlain(p, b, r, "");
    assert "" + b == b;
  }

  /** A solid piece, a blank line and a text starting solid split into the piece and the text's pieces. */
  lemma SplitBlockCons(p: Separator, b: string, rest: string)
    requires Solid(b) && |rest| > 0 && !IsSpace(rest[0])
    ensures RegexSplit(p, b + ("\n\n" + rest)) == [b] + RegexSplit(p, rest)
  {
    var tail := "\n\n" + rest;
    SplitSolid(p, b, tail);
    SepOfBlankLine(p, rest);
    assert tail[2..] == rest;
  }

  /** Well-formed blocks joined by blank lines neither start nor end with whitespace. */
  lemma {:induction false} JoinStartsSolid(bs: seq<string>)
    requires |bs| >= 1
    requires forall i :: 0 <= i < |bs| ==> WellFormedBlock(bs[i])
    ensures var j := Join(bs, "\n\n"); |j| > 0 && !IsSpace(j[0]) && !IsSpace(j[|j| - 1])
    decreases |bs|
  {
    assert WellFormedBlock(bs[0]);
    if |bs| > 1 {
      JoinStartsSolid(bs[1..]);
      var r := Join(bs[1..], "\n\n");
      var j := Join(bs, "\n\n");
      assert j == bs[0] + "\n\n" + r;
      assert j[|j| - 1] == r[|r| - 1];
    }
  }

  /** `strip()` of blocks written each followed by a blank line leaves the blocks joined by blank lines. */
  lemma StripWritten(bs: seq<string>)
    requires |bs| >= 1
    requires forall i :: 0 <= i < |bs| ==> WellFormedBlock(bs[i])
    ensures Strip(Join(bs, "\n\n") + "\n\n") == Join(bs, "\n\n")
  {
    var j := Join(bs, "\n\n");
    JoinStartsSolid(bs);
    StripTrailingBlank(j);
    assert Strip(j + "\n\n") == j;
  }

  lemma StripTrailingBlank(j: string)
    requires |j| > 0 && !IsSpace(j[0]) && !IsSpace(j[|j| - 1])
    ensures Strip(j + "\n\n") == j
  {
    var s := j + "\n\n";
    assert s[0] == j[0];
    assert StripLeft(s) == s;
    var j1 := j + "\n";
    assert s[..|s| - 1] == j1;
    assert StripRight(s) == StripRight(j1);
    assert j1[..|j1| - 1] == j;
    assert StripRight(j1) == StripRight(j);
  }

  /** A single non-blank line in front of a well-formed block keeps it well formed. */
  lemma LineThenBlock(a: string, b: string)
    requires |a| > 0 && !IsSpace(a[0]) && '\n' !in a && WellFormedBlock(b)
    ensures WellFormedBlock(a + "\n" + b)
  {
    SolidAfterLine(a, b);
    var s := a + "\n" + b;
    assert s[0] == a[0];
    assert s[|s| - 1] == b[|b| - 1];
  }

  /** A line without newline in front of a solid text that starts with a non-space keeps it solid. */
  lemma SolidAfterLine(a: string, b: string)
    requires '\n' !in a && |b| > 0 && !IsSpace(b[0]) && Solid(b)
    ensures Solid(a + "\n" + b)
  {
    var s := a + "\n" + b;
    assert forall j :: 0 <= j < |a| ==> s[j] == a[j] && a[j] in a;
    assert forall j :: 0 <= j < |b| ==> s[|a| + 1 + j] == b[j];
  }

  /** Non-blank stripped lines joined by newlines form a solid text that starts and ends with a non-space. */
  lemma {:induction false} JoinLinesSolid(lines: seq<string>)
    requires |lines| >= 1
    requires forall k :: 0 <= k < |lines| ==> lines[k] != "" && IsStripped(lines[k]) && '\n' !in lines[k]
    ensures var t := Join(lines, "\n"); |t| > 0 && !IsSpace(t[0]) && !IsSpace(t[|t| - 1]) && Solid(t)
    decreases |lines|
  {
    var t := Join(lines, "\n");
    var l := lines[0];
    if |lines| == 1 {
      assert Solid(l) by {
        assert forall j :: 0 <= j < |l| ==> l[j] in l;
      }
    } else {
      var rest := Join(lines[1..], "\n");
      JoinLinesSolid(lines[1..]);
      SolidAfterLine(l, rest);
      assert t == l + "\n" + rest;
      assert t[0] == l[0];
      assert t[|t| - 1] == rest[|rest| - 1];
    }
  }
}
