/**
 Byte strings and their lines.

 A Go string or `[]byte` is a `string` here, one character per byte. Policy files are
 edited line by line, so the module relates a text to the lines it is made of: `Split`
 cuts at every '\n', `Join` puts the lines back, and `Offset` is where a line starts.
 */
module Text {

  predicate Newlineless(line: string) { '\n' !in line }

  predicate AllNewlineless(lines: seq<string>) {
    forall k :: 0 <= k < |lines| ==> Newlineless(lines[k])
  }

  function Split(s: string): (lines: seq<string>)
    ensures |lines| >= 1
  {
    if s == "" then [""]
    else
      var rest := Split(s[1..]);
      if s[0] == '\n' then [""] + rest else [[s[0]] + rest[0]] + rest[1..]
  }

  function Join(lines: seq<string>): string
    requires |lines| >= 1
  {
    if |lines| == 1 then lines[0] else lines[0] + "\n" + Join(lines[1..])
  }

  /** Every line followed by its newline. */
  function Terminated(lines: seq<string>): string {
    if lines == [] then "" else lines[0] + "\n" + Terminated(lines[1..])
  }

  /** The position in `Join(lines)` where line k starts. */
  function Offset(lines: seq<string>, k: nat): nat
    requires k <= |lines|
  {
    |Terminated(lines[..k])|
  }

  lemma {:induction false} JoinSplit(s: string)
    ensures Join(Split(s)) == s
    ensures AllNewlineless(Split(s))
  {
    if s != "" {
      JoinSplit(s[1..]);
      var rest := Split(s[1..]);
      assert s == [s[0]] + s[1..];
      if s[0] == '\n' {
        assert Split(s)[1..] == rest;
      } else {
        assert Split(s)[1..] == rest[1..];
      }
    }
  }

  lemma {:induction false} SplitPrefix(line: string, s: string)
    requires Newlineless(line)
    ensures Split(line + s) == [line + Split(s)[0]] + Split(s)[1..]
  {
    if line == "" {
      assert line + s == s;
      assert line + Split(s)[0] == Split(s)[0];
    } else {
      assert (line + s)[1..] == line[1..] + s;
      SplitPrefix(line[1..], s);
      var rest := Split(line[1..] + s);
      assert [line[0]] + rest[0] == line + Split(s)[0];
      assert rest[1..] == Split(s)[1..];
    }
  }

  lemma {:induction false} SplitJoin(lines: seq<string>)
    requires |lines| >= 1 && AllNewlineless(lines)
    ensures Split(Join(lines)) == lines
  {
    if |lines| == 1 {
      SplitPrefix(lines[0], "");
      assert lines[0] + "" == lines[0];
    } else {
      SplitJoin(lines[1..]);
      var tail := "\n" + Join(lines[1..]);
      assert tail[1..] == Join(lines[1..]);
      SplitPrefix(lines[0], tail);
      assert lines[0] + "\n" + Join(lines[1..]) == lines[0] + tail;
      assert Split(tail) == [""] + lines[1..];
      assert lines[0] + "" == lines[0];
    }
  }

  lemma {:induction false} TerminatedConcat(a: seq<string>, b: seq<string>)
    ensures Terminated(a + b) == Terminated(a) + Terminated(b)
  {
    if a == [] {
      assert a + b == b;
    } else {
      assert (a + b)[1..] == a[1..] + b;
      TerminatedConcat(a[1..], b);
    }
  }

  lemma {:induction false} JoinConcat(a: seq<string>, b: seq<string>)
    requires |b| >= 1
    ensures Join(a + b) == Terminated(a) + Join(b)
  {
    if a == [] {
      assert a + b == b;
    } else {
      assert (a + b)[1..] == a[1..] + b;
      JoinConcat(a[1..], b);
    }
  }

  /** Line k starts at Offset(k): the text splits there into whole lines. */
  lemma SplitAtLine(lines: seq<string>, k: nat)
    requires k < |lines|
    ensures Offset(lines, k) <= |Join(lines)|
    ensures Join(lines)[..Offset(lines, k)] == Terminated(lines[..k])
    ensures Join(lines)[Offset(lines, k)..] == Join(lines[k..])
  {
    assert lines == lines[..k] + lines[k..];
    JoinConcat(lines[..k], lines[k..]);
  }

  lemma OffsetStep(lines: seq<string>, k: nat)
    requires k < |lines|
    ensures Offset(lines, k + 1) == Offset(lines, k) + |lines[k]| + 1
  {
    assert lines[..k + 1] == lines[..k] + [lines[k]];
    TerminatedConcat(lines[..k], [lines[k]]);
    assert [lines[k]][1..] == [];
  }

  lemma {:induction false} OffsetMonotone(lines: seq<string>, j: nat, k: nat)
    requires j < k <= |lines|
    ensures Offset(lines, j) + |lines[j]| + 1 <= Offset(lines, k)
    decreases k - j
  {
    OffsetStep(lines, j);
    if j + 1 < k {
      OffsetMonotone(lines, j + 1, k);
    }
  }

  /** What follows line k, up to the end of the text. */
  function After(lines: seq<string>, k: nat): string
    requires k < |lines|
  {
    if k + 1 == |lines| then "" else "\n" + Join(lines[k + 1..])
  }

  lemma FirstLine(lines: seq<string>)
    requires lines != []
    ensures Join(lines) == lines[0] + After(lines, 0)
  {
    if |lines| > 1 {
      assert lines[0] + "\n" + Join(lines[1..]) == lines[0] + ("\n" + Join(lines[1..]));
    }
  }

  /** The text around line k. */
  lemma AroundLine(lines: seq<string>, k: nat)
    requires k < |lines|
    ensures Join(lines) == Terminated(lines[..k]) + (lines[k] + After(lines, k))
  {
    var rest := lines[k..];
    assert lines == lines[..k] + rest;
    JoinConcat(lines[..k], rest);
    FirstLine(rest);
    assert rest[1..] == lines[k + 1..];
    assert After(rest, 0) == After(lines, k);
  }

  lemma AroundReplaced(lines: seq<string>, k: nat, l: string)
    requires k < |lines|
    ensures Join(lines[k := l]) == Terminated(lines[..k]) + (l + After(lines, k))
  {
    AroundLine(lines[k := l], k);
    assert lines[k := l][..k] == lines[..k];
    assert lines[k := l][k + 1..] == lines[k + 1..];
  }

  lemma MiddleOf(before: string, l: string, after: string)
    ensures var text := before + (l + after);
            |text| == |before| + |l| + |after|
            && text[|before|..|before| + |l|] == l
            && (after != "" ==> text[|before| + |l|] == after[0])
  {
  }

  /** The characters of line k sit at its offset, and the last line reaches the end of the text. */
  lemma LineAt(lines: seq<string>, k: nat)
    requires k < |lines|
    ensures Offset(lines, k) + |lines[k]| <= |Join(lines)|
    ensures Join(lines)[Offset(lines, k)..Offset(lines, k) + |lines[k]|] == lines[k]
    ensures k + 1 < |lines| ==> Offset(lines, k) + |lines[k]| < |Join(lines)|
                                && Join(lines)[Offset(lines, k) + |lines[k]|] == '\n'
    ensures k + 1 == |lines| ==> Offset(lines, k) + |lines[k]| == |Join(lines)|
  {
    hide Join, Terminated;
    AroundLine(lines, k);
    MiddleOf(Terminated(lines[..k]), lines[k], After(lines, k));
  }

  lemma CutMiddle(before: string, l: string, after: string, a: nat, b: nat)
    requires a <= b <= |l|
    ensures var text := before + (l + after);
            text[..|before| + a] == before + l[..a] && text[|before| + b..] == l[b..] + after
  {
  }

  lemma RegroupMiddle(before: string, x: string, w: string, y: string, after: string)
    ensures before + x + w + (y + after) == before + ((x + w + y) + after)
  {
  }

  lemma ReplaceMiddle(before: string, l: string, after: string, a: nat, b: nat, w: string)
    requires a <= b <= |l|
    ensures var text := before + (l + after);
            text[..|before| + a] + w + text[|before| + b..] == before + ((l[..a] + w + l[b..]) + after)
  {
    CutMiddle(before, l, after, a, b);
    RegroupMiddle(before, l[..a], w, l[b..], after);
  }

  /** Replacing the middle of line k in the text replaces it in the line. */
  lemma ReplaceInLine(lines: seq<string>, k: nat, a: nat, b: nat, w: string)
    requires k < |lines| && a <= b <= |lines[k]|
    ensures Offset(lines, k) + b <= |Join(lines)|
    ensures Join(lines)[..Offset(lines, k) + a] + w + Join(lines)[Offset(lines, k) + b..]
            == Join(lines[k := lines[k][..a] + w + lines[k][b..]])
  {
    hide Join, Terminated, After;
    var before, l, after := Terminated(lines[..k]), lines[k], After(lines, k);
    AroundLine(lines, k);
    AroundReplaced(lines, k, l[..a] + w + l[b..]);
    ReplaceMiddle(before, l, after, a, b, w);
  }

  /** Inserting whole terminated lines where line k starts. */
  lemma InsertLines(lines: seq<string>, k: nat, added: seq<string>)
    requires k < |lines|
    ensures Offset(lines, k) <= |Join(lines)|
    ensures Join(lines)[..Offset(lines, k)] + Terminated(added) + Join(lines)[Offset(lines, k)..]
            == Join(lines[..k] + added + lines[k..])
  {
    SplitAtLine(lines, k);
    JoinConcat(lines[..k] + added, lines[k..]);
    TerminatedConcat(lines[..k], added);
  }
}
