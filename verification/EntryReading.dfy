/**
 How a project's block is read after removeAllowEntries dropped some of its lines: exactly
 the selected allow entries disappear.
 */
module EntryReading {
  import opened Basics
  import opened TomlStrings
  import opened Layout
  import opened Reading
  import opened BlockReading

  /** The lines whose numbers (counted from `base`) are not in `drop`. */
  function Drop(lines: seq<string>, base: nat, drop: set<nat>): seq<string> {
    if lines == [] then []
    else (if base in drop then [] else [lines[0]]) + Drop(lines[1..], base + 1, drop)
  }

  /** The elements whose positions are not in `remove`. */
  function Keep<T>(s: seq<T>, remove: set<int>): seq<T> {
    if s == [] then []
    else Keep(s[..|s| - 1], remove) + (if |s| - 1 in remove then [] else [s[|s| - 1]])
  }

  // ----- Which lines belong to which entry -----

  /** How many allow tables have been opened before line k. */
  function Opened(lines: seq<string>, k: nat): nat
    requires k <= |lines|
  {
    if k == 0 then 0 else Opened(lines, k - 1) + (if IsAllowHeader(lines[k - 1]) then 1 else 0)
  }

  predicate HeaderOf(lines: seq<string>, k: nat, entry: int) {
    k < |lines| && IsAllowHeader(lines[k]) && Opened(lines, k) == entry
  }

  /** An argv line somewhere between the header of this entry and the next one. */
  predicate ArgvOf(lines: seq<string>, k: nat, entry: int) {
    k < |lines| && IsArgvLine(lines[k]) && Opened(lines, k) == entry + 1
  }

  ghost predicate UniqueArgv(lines: seq<string>, remove: set<int>) {
    forall j, k, entry :: entry in remove && ArgvOf(lines, j, entry) && ArgvOf(lines, k, entry) ==> j == k
  }

  /** `drop` holds the header and argv lines of the removed entries and nothing else. */
  ghost predicate DropsEntries(lines: seq<string>, drop: set<nat>, remove: set<int>) {
    forall k :: 0 <= k < |lines| ==>
      (k in drop <==> exists entry :: entry in remove && (HeaderOf(lines, k, entry) || ArgvOf(lines, k, entry)))
  }

  lemma AllowHeaderKind(line: string)
    ensures IsAllowHeader(line) <==> Classify(line) == AllowHeader
    ensures IsAllowHeader(line) ==> !IsArgvLine(line)
  {
    if IsAllowHeader(line) {
      var body := StripCr(line);
      var t := SkipBlanks(body);
      var h := "[[projects.allow]]";
      hide SkipBlanks, StripCr;
      var x := BlanksSplit(body);
      var y := BlanksSplit(t[|h|..]);
      assert t == h + t[|h|..] by { assert t == t[..|h|] + t[|h|..]; }
      assert '\r' !in h && '\r' !in x && '\r' !in y;
      assert '\r' !in body;
      assert t[0] == '[';
      NotKeyStart(line);
    }
  }

  lemma NotKeyStart(line: string)
    requires SkipBlanks(StripCr(line)) == "" || !KeyChar(SkipBlanks(StripCr(line))[0])
    ensures !IsArgvLine(line)
  {
  }

  lemma NonPairNotArgv(line: string)
    requires Classify(line) == Blank || Classify(line) == Table
    ensures !IsArgvLine(line)
  {
    NonPairStart(line);
    NotKeyStart(line);
  }

  lemma NonPairStart(line: string)
    requires Classify(line) == Blank || Classify(line) == Table
    ensures SkipBlanks(StripCr(line)) == "" || !KeyChar(SkipBlanks(StripCr(line))[0])
  {
    hide SkipBlanks, StripCr, KeyAt, FieldValue, ReadArray, ReadString, IsAllowHeader;
  }

  // ----- Reading with the lines dropped, in step with reading all lines -----

  /** Where the reading stands: what the reduced text has read so far. */
  predicate InStep(st: Body, st': Body, remove: set<int>) {
    && st'.project.fields == st.project.fields && st'.rest == st.rest
    && st'.project.allow == Keep(st.project.allow, remove)
    && (st'.section == st.section
        || (st.section == InAllow && st.project.allow != [] && |st.project.allow| - 1 in remove))
  }

  /** The line is dropped exactly if it opens a removed entry or gives one its argv. */
  predicate DropsLine(st: Body, line: string, dropped: bool, remove: set<int>) {
    match Classify(line)
    case AllowHeader => dropped <==> |st.project.allow| in remove
    case Blank => !dropped
    case Table => !dropped
    case _ => dropped <==> st.section == InAllow && |st.project.allow| - 1 in remove
  }

  lemma KeepAppend<T>(s: seq<T>, x: T, remove: set<int>)
    ensures Keep(s + [x], remove) == Keep(s, remove) + (if |s| in remove then [] else [x])
  {
    assert (s + [x])[..|s|] == s;
  }

  lemma StepDropped(st: Body, st': Body, line: string, remove: set<int>)
    requires InStep(st, st', remove) && Step(st, line).Some? && DropsLine(st, line, true, remove)
    ensures InStep(Step(st, line).value, st', remove)
  {
    hide Classify, StripCr;
    var allow := st.project.allow;
    if Classify(line) == AllowHeader {
      KeepAppend(allow, None, remove);
    } else {
      KeepAppend(allow[..|allow| - 1], Some(Classify(line).argv), remove);
      KeepAppend(allow[..|allow| - 1], None, remove);
      assert allow == allow[..|allow| - 1] + [None];
    }
  }

  lemma StepKept(st: Body, st': Body, line: string, remove: set<int>)
    requires InStep(st, st', remove) && Step(st, line).Some? && DropsLine(st, line, false, remove)
    ensures Step(st', line).Some? && InStep(Step(st, line).value, Step(st', line).value, remove)
  {
    hide Classify, StripCr, Keep;
    var allow := st.project.allow;
    if Classify(line) == AllowHeader {
      KeepAppend(allow, None, remove);
    } else if Classify(line) != Blank && Classify(line) != Table && st.section == InAllow {
      var front := allow[..|allow| - 1];
      KeepAppend(front, None, remove);
      KeepAppend(front, Some(Classify(line).argv), remove);
      assert allow == front + [None];
      var allow' := st'.project.allow;
      assert allow' == Keep(front, remove) + [None];
      assert allow'[..|allow'| - 1] == Keep(front, remove);
    }
  }

  /** Every line from here on is dropped exactly as it should be. */
  predicate DropsAll(lines: seq<string>, base: nat, st: Body, drop: set<nat>, remove: set<int>) {
    lines == [] ||
    (DropsLine(st, lines[0], base in drop, remove)
     && match Step(st, lines[0])
        case None => false
        case Some(next) => DropsAll(lines[1..], base + 1, next, drop, remove))
  }

  lemma {:induction false} ReadDropped(lines: seq<string>, base: nat, st: Body, st': Body, drop: set<nat>,
                                       remove: set<int>)
    requires InStep(st, st', remove) && ReadBody(lines, st).Some? && DropsAll(lines, base, st, drop, remove)
    ensures ReadBody(Drop(lines, base, drop), st').Some?
    ensures InStep(ReadBody(lines, st).value, ReadBody(Drop(lines, base, drop), st').value, remove)
  {
    hide Step, InStep, DropsLine;
    if lines != [] {
      var next := Step(st, lines[0]).value;
      var rest := Drop(lines[1..], base + 1, drop);
      if base in drop {
        StepDropped(st, st', lines[0], remove);
        ReadDropped(lines[1..], base + 1, next, st', drop, remove);
        assert Drop(lines, base, drop) == rest;
      } else {
        StepKept(st, st', lines[0], remove);
        ReadDropped(lines[1..], base + 1, next, Step(st', lines[0]).value, drop, remove);
        assert Drop(lines, base, drop) == [lines[0]] + rest;
        assert ([lines[0]] + rest)[1..] == rest;
      }
    }
  }

  // ----- The lines the pattern search selects are the right ones -----

  lemma StepOpens(st: Body, line: string)
    requires Step(st, line).Some?
    ensures |Step(st, line).value.project.allow| == |st.project.allow| + (if IsAllowHeader(line) then 1 else 0)
  {
    AllowHeaderKind(line);
    hide Classify, StripCr, IsAllowHeader;
  }

  lemma ReadStep(lines: seq<string>, k: nat, st: Body)
    requires k < |lines| && ReadBody(lines[..k], st).Some?
    ensures ReadBody(lines[..k + 1], st) == Step(ReadBody(lines[..k], st).value, lines[k])
  {
    hide Step;
    assert lines[..k + 1] == lines[..k] + [lines[k]];
    ReadBodyConcat(lines[..k], [lines[k]], st);
    ReadOne(ReadBody(lines[..k], st).value, lines[k]);
  }

  lemma {:induction false} OpenedCounts(lines: seq<string>, k: nat)
    requires k <= |lines| && ReadBody(lines[..k], EmptyBody).Some?
    ensures |ReadBody(lines[..k], EmptyBody).value.project.allow| == Opened(lines, k)
  {
    hide Step, IsAllowHeader;
    if k > 0 {
      assert lines[..k][..k - 1] == lines[..k - 1];
      ReadPrefix(lines[..k], k - 1, EmptyBody);
      OpenedCounts(lines, k - 1);
      ReadStep(lines, k - 1, EmptyBody);
      StepOpens(ReadBody(lines[..k - 1], EmptyBody).value, lines[k - 1]);
    }
  }

  predicate Unset(st: Body, entry: nat) {
    entry < |st.project.allow| ==> st.project.allow[entry].None?
  }

  predicate SetEntry(st: Body, entry: nat) {
    entry < |st.project.allow| && st.project.allow[entry].Some?
  }

  /** The removed entries exist and have an argv. */
  predicate AllSet(st: Body, remove: set<int>) {
    forall e: int :: e in remove ==> 0 <= e && SetEntry(st, e)
  }

  /** A line that gives an entry its argv is an argv line of that entry's table. */
  lemma StepSetsEntry(st: Body, line: string, entry: nat)
    requires Step(st, line).Some? && Unset(st, entry) && SetEntry(Step(st, line).value, entry)
    ensures st.section == InAllow && Classify(line).Argv? && |st.project.allow| == entry + 1
    ensures IsArgvLine(line)
  {
    assert Classify(line).Argv? by { hide Classify, StripCr; }
    ArgvLineParts(line);
    hide Classify, StripCr, IsArgvLine;
  }

  /** An entry that ends up with an argv got it from one of its own lines. */
  lemma {:induction false} SetterExists(lines: seq<string>, k: nat, entry: nat)
    requires k <= |lines| && ReadBody(lines[..k], EmptyBody).Some?
    requires SetEntry(ReadBody(lines[..k], EmptyBody).value, entry)
    ensures exists s :: 0 <= s < k && ReadBody(lines[..s], EmptyBody).Some?
                        && ReadBody(lines[..s], EmptyBody).value.section == InAllow && ArgvOf(lines, s, entry)
  {
    hide Step, IsArgvLine, IsAllowHeader, Opened;
    if k > 0 {
      assert lines[..k][..k - 1] == lines[..k - 1];
      ReadPrefix(lines[..k], k - 1, EmptyBody);
      ReadStep(lines, k - 1, EmptyBody);
      var before := ReadBody(lines[..k - 1], EmptyBody).value;
      if SetEntry(before, entry) {
        SetterExists(lines, k - 1, entry);
      } else {
        StepSetsEntry(before, lines[k - 1], entry);
        OpenedCounts(lines, k - 1);
        assert ArgvOf(lines, k - 1, entry);
      }
    }
  }

  /** Line k is dropped as it should be. */
  lemma LineDropped(lines: seq<string>, k: nat, drop: set<nat>, remove: set<int>)
    requires k < |lines| && ReadBody(lines, EmptyBody).Some? && ReadBody(lines[..k], EmptyBody).Some?
    requires Step(ReadBody(lines[..k], EmptyBody).value, lines[k]).Some?
    requires AllSet(ReadBody(lines, EmptyBody).value, remove)
    requires DropsEntries(lines, drop, remove) && UniqueArgv(lines, remove)
    ensures DropsLine(ReadBody(lines[..k], EmptyBody).value, lines[k], k in drop, remove)
  {
    var st := ReadBody(lines[..k], EmptyBody).value;
    var n := |st.project.allow|;
    OpenedCounts(lines, k);
    AllowHeaderKind(lines[k]);
    if Classify(lines[k]) == AllowHeader {
      hide Classify, StripCr, IsAllowHeader, IsArgvLine, Step, Opened;
      assert forall e :: HeaderOf(lines, k, e) <==> e == n;
    } else if Classify(lines[k]) == Blank || Classify(lines[k]) == Table {
      NonPairNotArgv(lines[k]);
      hide Classify, StripCr, IsAllowHeader, IsArgvLine, Step, Opened;
    } else {
      PairDropped(lines, k, drop, remove);
      hide Classify, StripCr, IsAllowHeader, IsArgvLine, Step, Opened;
    }
  }

  /** The only argv line of a removed entry stands directly in that entry's table. */
  lemma ArgvLineInTable(lines: seq<string>, k: nat, entry: nat, remove: set<int>)
    requires k < |lines| && ReadBody(lines, EmptyBody).Some? && ReadBody(lines[..k], EmptyBody).Some?
    requires entry in remove && SetEntry(ReadBody(lines, EmptyBody).value, entry)
    requires UniqueArgv(lines, remove) && ArgvOf(lines, k, entry)
    ensures ReadBody(lines[..k], EmptyBody).value.section == InAllow
  {
    hide ReadBody, SetEntry, ArgvOf;
    assert lines[..|lines|] == lines;
    SetterExists(lines, |lines|, entry);
    var s :| 0 <= s < |lines| && ReadBody(lines[..s], EmptyBody).Some?
             && ReadBody(lines[..s], EmptyBody).value.section == InAllow && ArgvOf(lines, s, entry);
    assert s == k;
  }

  lemma InTableIsArgv(st: Body, line: string)
    requires st.section == InAllow && Step(st, line).Some?
    requires Classify(line) != AllowHeader && Classify(line) != Blank && Classify(line) != Table
    ensures IsArgvLine(line)
  {
    assert Classify(line).Argv? by { hide Classify, StripCr; }
    ArgvLineParts(line);
  }

  lemma PairDropped(lines: seq<string>, k: nat, drop: set<nat>, remove: set<int>)
    requires k < |lines| && ReadBody(lines, EmptyBody).Some? && ReadBody(lines[..k], EmptyBody).Some?
    requires Step(ReadBody(lines[..k], EmptyBody).value, lines[k]).Some?
    requires Classify(lines[k]) != AllowHeader && Classify(lines[k]) != Blank && Classify(lines[k]) != Table
    requires AllSet(ReadBody(lines, EmptyBody).value, remove)
    requires DropsEntries(lines, drop, remove) && UniqueArgv(lines, remove)
    ensures var st := ReadBody(lines[..k], EmptyBody).value;
            k in drop <==> st.section == InAllow && |st.project.allow| - 1 in remove
  {
    hide Classify, StripCr, IsAllowHeader, IsArgvLine, Step, Opened, ReadBody, SetEntry, UniqueArgv;
    var st := ReadBody(lines[..k], EmptyBody).value;
    var e := |st.project.allow| - 1;
    OpenedCounts(lines, k);
    AllowHeaderKind(lines[k]);
    if k in drop {
      assert e in remove && ArgvOf(lines, k, e);
      ArgvLineInTable(lines, k, e, remove);
    }
    if st.section == InAllow && e in remove {
      InTableIsArgv(st, lines[k]);
      assert ArgvOf(lines, k, e);
    }
  }

  lemma {:induction false} AllLinesDropped(lines: seq<string>, k: nat, drop: set<nat>, remove: set<int>)
    requires k <= |lines| && ReadBody(lines, EmptyBody).Some? && ReadBody(lines[..k], EmptyBody).Some?
    requires AllSet(ReadBody(lines, EmptyBody).value, remove)
    requires DropsEntries(lines, drop, remove) && UniqueArgv(lines, remove)
    ensures DropsAll(lines[k..], k, ReadBody(lines[..k], EmptyBody).value, drop, remove)
    decreases |lines| - k
  {
    hide Step, DropsLine, DropsEntries, UniqueArgv, SetEntry;
    if k < |lines| {
      ReadPrefix(lines, k + 1, EmptyBody);
      ReadStep(lines, k, EmptyBody);
      LineDropped(lines, k, drop, remove);
      AllLinesDropped(lines, k + 1, drop, remove);
      assert lines[k..][0] == lines[k] && lines[k..][1..] == lines[k + 1..];
    }
  }

  /**
   Dropping the header and argv lines of the removed entries removes exactly those entries
   from what the block is read as.
   */
  lemma ReadWithoutEntries(lines: seq<string>, drop: set<nat>, remove: set<int>)
    requires ReadBody(lines, EmptyBody).Some?
    requires AllSet(ReadBody(lines, EmptyBody).value, remove)
    requires DropsEntries(lines, drop, remove) && UniqueArgv(lines, remove)
    ensures ReadBody(Drop(lines, 0, drop), EmptyBody).Some?
    ensures var fin, fin' := ReadBody(lines, EmptyBody).value, ReadBody(Drop(lines, 0, drop), EmptyBody).value;
            fin'.rest == fin.rest
            && fin'.project == fin.project.(allow := Keep(fin.project.allow, remove))
  {
    assert lines[..0] == [] && lines[0..] == lines;
    AllLinesDropped(lines, 0, drop, remove);
    assert InStep(EmptyBody, EmptyBody, remove);
    ReadDropped(lines, 0, EmptyBody, EmptyBody, drop, remove);
  }
}
