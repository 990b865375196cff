/**
 How a project's block is read after its lines are edited.
 */
module BlockReading {
  import opened Basics
  import opened Text
  import opened TomlStrings
  import opened Layout
  import opened Reading

  function Put(st: Body, key: Key, v: string): Body {
    st.(project := st.project.(fields := st.project.fields[key := v]))
  }

  predicate Has(st: Body, key: Key) { key in st.project.fields }

  // ----- Setting a field commutes with reading the other lines -----

  lemma StepPut(st: Body, line: string, key: Key, v: string)
    requires Step(st, line).Some?
    requires Has(st, key) || !Has(Step(st, line).value, key)
    ensures Step(Put(st, key, v), line) == Some(Put(Step(st, line).value, key, v))
  {
    hide Classify, StripCr;
    var fields := st.project.fields;
    match Classify(line)
    case Field(k, w) =>
      if st.section.InProject? {
        assert k != key;
        assert fields[key := v][k := w] == fields[k := w][key := v];
      }
    case _ =>
  }

  lemma StepKeeps(st: Body, line: string, key: Key)
    requires Step(st, line).Some? && Has(st, key)
    ensures Has(Step(st, line).value, key)
  {
    hide Classify, StripCr;
  }

  lemma {:induction false} ReadKeeps(lines: seq<string>, st: Body, key: Key)
    requires ReadBody(lines, st).Some? && Has(st, key)
    ensures Has(ReadBody(lines, st).value, key)
  {
    hide Step;
    if lines != [] {
      StepKeeps(st, lines[0], key);
      ReadKeeps(lines[1..], Step(st, lines[0]).value, key);
    }
  }

  lemma {:induction false} ReadPut(lines: seq<string>, st: Body, key: Key, v: string)
    requires ReadBody(lines, st).Some?
    requires Has(st, key) || !Has(ReadBody(lines, st).value, key)
    ensures ReadBody(lines, Put(st, key, v)) == Some(Put(ReadBody(lines, st).value, key, v))
  {
    hide Step, Put, Has;
    if lines != [] {
      var next := Step(st, lines[0]).value;
      if Has(next, key) && !Has(st, key) { ReadKeeps(lines[1..], next, key); }
      StepPut(st, lines[0], key, v);
      if Has(st, key) { StepKeeps(st, lines[0], key); }
      ReadPut(lines[1..], next, key, v);
    }
  }

  // ----- Replacing the only field line of a key -----

  /** The line with its value replaced by a written one. */
  function WithValue(line: string, name: string, v: string): string
    requires IsFieldLine(name, line)
  {
    var (a, b) := FieldValue(name, line).value;
    line[..a] + JsonString(v) + line[b..]
  }

  predicate OnlyFieldLine(lines: seq<string>, name: string, k: nat) {
    && k < |lines| && IsFieldLine(name, lines[k])
    && forall j :: 0 <= j < |lines| && j != k ==> !IsFieldLine(name, lines[j])
  }

  lemma StepSets(st: Body, line: string, key: Key)
    requires Step(st, line).Some? && !Has(st, key) && Has(Step(st, line).value, key)
    ensures st.section == InProject && Classify(line).Field? && Classify(line).key == key
    ensures IsFieldLine(KeyName(key), line)
  {
    assert Classify(line).Field? && Classify(line).key == key by { hide Classify, StripCr; }
    FieldLineParts(line, key);
  }

  lemma {:induction false} SomeLineSets(lines: seq<string>, st: Body, key: Key)
    requires ReadBody(lines, st).Some? && !Has(st, key) && Has(ReadBody(lines, st).value, key)
    ensures exists j :: 0 <= j < |lines| && IsFieldLine(KeyName(key), lines[j])
  {
    hide Step, Has, IsFieldLine, KeyName;
    var next := Step(st, lines[0]).value;
    if Has(next, key) {
      StepSets(st, lines[0], key);
    } else {
      SomeLineSets(lines[1..], next, key);
      var j :| 0 <= j < |lines[1..]| && IsFieldLine(KeyName(key), lines[1..][j]);
      assert lines[j + 1] == lines[1..][j];
    }
  }

  lemma StepReplaced(st: Body, line: string, line': string, key: Key, v: string)
    requires st.section == InProject && !Has(st, key) && Step(st, line).Some?
    requires Classify(line).Field? && Classify(line).key == key && Classify(line') == Field(key, v)
    ensures Step(st, line') == Some(Put(Step(st, line).value, key, v))
    ensures Has(Step(st, line).value, key)
  {
    hide Classify, StripCr;
    assert st.project.fields[key := Classify(line).value][key := v] == st.project.fields[key := v];
  }

  /** The line that gives the project the field, rewritten. */
  lemma FirstReplaced(line: string, rest: seq<string>, st: Body, key: Key, v: string)
    requires Step(st, line).Some? && !Has(st, key) && Has(Step(st, line).value, key)
    requires ReadBody(rest, Step(st, line).value).Some? && Newlineless(line) && Writable(v)
    ensures IsFieldLine(KeyName(key), line) && Classify(line).Field? && Classify(line).key == key
    ensures ReadBody([WithValue(line, KeyName(key), v)] + rest, st)
            == Some(Put(ReadBody(rest, Step(st, line).value).value, key, v))
  {
    StepSets(st, line, key);
    ReplacedFieldLine(line, key, v);
    var line' := WithValue(line, KeyName(key), v);
    assert Classify(line') == Field(key, v);
    hide Step, Has, IsFieldLine, KeyName, Put, Classify, Newlineless, WithValue, Writable;
    StepReplaced(st, line, line', key, v);
    ReadPut(rest, Step(st, line).value, key, v);
    assert ([line'] + rest)[1..] == rest;
  }

  /**
   If exactly one line of the block is a field line of this key and the project has the
   field, that line is where it comes from, and replacing its value replaces the field.
   */
  lemma {:induction false} ReadReplaced(lines: seq<string>, st: Body, key: Key, k: nat, v: string)
    requires ReadBody(lines, st).Some? && !Has(st, key) && Has(ReadBody(lines, st).value, key)
    requires OnlyFieldLine(lines, KeyName(key), k) && AllNewlineless(lines) && Writable(v)
    ensures ReadBody(lines[k := WithValue(lines[k], KeyName(key), v)], st)
            == Some(Put(ReadBody(lines, st).value, key, v))
    ensures Classify(lines[k]).Field? && Classify(lines[k]).key == key
  {
    hide Step, Has, IsFieldLine, KeyName, Put, Classify, Newlineless, WithValue, Writable;
    var next, rest := Step(st, lines[0]).value, lines[1..];
    var line' := WithValue(lines[k], KeyName(key), v);
    if Has(next, key) {
      assert Newlineless(lines[0]);
      FirstReplaced(lines[0], rest, st, key, v);
      assert k == 0 && lines[0 := line'] == [line'] + rest;
    } else {
      SomeLineSets(rest, next, key);
      var j :| 0 <= j < |rest| && IsFieldLine(KeyName(key), rest[j]);
      assert rest[j] == lines[j + 1];
      assert k == j + 1;
      assert OnlyFieldLine(rest, KeyName(key), k - 1);
      ReadReplaced(rest, next, key, k - 1, v);
      assert lines[k := line'] == [lines[0]] + rest[k - 1 := line'];
    }
  }

  // ----- Inserting a field line -----

  predicate Untabled(lines: seq<string>) {
    forall i :: 0 <= i < |lines| ==> Classify(lines[i]) != AllowHeader && Classify(lines[i]) != Table
  }

  lemma {:induction false} StaysInProject(lines: seq<string>, st: Body)
    requires Untabled(lines) && st.section == InProject && ReadBody(lines, st).Some?
    ensures ReadBody(lines, st).value.section == InProject
  {
    if lines != [] {
      hide Classify, StripCr;
      StaysInProject(lines[1..], Step(st, lines[0]).value);
    }
  }

  lemma StepField(st: Body, line: string, key: Key, v: string)
    requires st.section == InProject && !Has(st, key) && Classify(line) == Field(key, v)
    ensures Step(st, line) == Some(Put(st, key, v))
  {
    hide Classify, StripCr;
  }

  lemma ReadInserted(a: seq<string>, b: seq<string>, st: Body, line: string, key: Key, v: string)
    requires ReadBody(a + b, st).Some? && !Has(ReadBody(a + b, st).value, key)
    requires ReadBody(a, st).Some? && ReadBody(a, st).value.section == InProject
    requires Classify(line) == Field(key, v)
    ensures ReadBody(a + [line] + b, st) == Some(Put(ReadBody(a + b, st).value, key, v))
  {
    hide Classify, StripCr, Step, Put, Has;
    ReadBodyConcat(a, b, st);
    ReadBodyConcat(a + [line], b, st);
    ReadBodyConcat(a, [line], st);
    var mid := ReadBody(a, st).value;
    if Has(mid, key) { ReadKeeps(b, mid, key); }
    StepField(mid, line, key, v);
    ReadOne(mid, line);
    ReadPut(b, mid, key, v);
  }

  lemma ReadOne(st: Body, line: string)
    ensures ReadBody([line], st) == Step(st, line)
  {
    hide Step;
    assert [line][1..] == [];
  }

  /** Reading the whole means reading every prefix. */
  lemma ReadPrefix(lines: seq<string>, k: nat, st: Body)
    requires k <= |lines| && ReadBody(lines, st).Some?
    ensures ReadBody(lines[..k], st).Some?
  {
    assert lines == lines[..k] + lines[k..];
    ReadBodyConcat(lines[..k], lines[k..], st);
  }

  // ----- Lines that mean nothing, and lines that mean the same -----

  lemma ReadBlankAdded(a: seq<string>, blank: string, b: seq<string>, st: Body)
    requires Classify(blank) == Blank
    ensures ReadBody(a + [blank] + b, st) == ReadBody(a + b, st)
  {
    hide Classify, StripCr;
    ReadBodyConcat(a, b, st);
    ReadBodyConcat(a + [blank], b, st);
    ReadBodyConcat(a, [blank], st);
    if ReadBody(a, st).Some? { ReadOne(ReadBody(a, st).value, blank); }
  }

  lemma BlankLines()
    ensures Classify("") == Blank && Classify("\r") == Blank
    ensures !IsProjectHeader("") && !IsProjectHeader("\r")
  {
    assert StripCr("\r") == "";
  }

  lemma StepSameBody(st: Body, line: string, line': string)
    requires StripCr(line) == StripCr(line')
    ensures Step(st, line) == Step(st, line')
  {
    SameBodySameKind(line, line');
    hide Classify, StripCr;
  }

  lemma {:induction false} ReadSameBodies(lines: seq<string>, k: nat, line': string, st: Body)
    requires k < |lines| && StripCr(lines[k]) == StripCr(line')
    ensures ReadBody(lines[k := line'], st) == ReadBody(lines, st)
  {
    hide Step, StripCr;
    if k == 0 {
      StepSameBody(st, lines[0], line');
      assert lines[0 := line'][1..] == lines[1..];
    } else {
      assert lines[k := line'][1..] == lines[1..][k - 1 := line'];
      if Step(st, lines[0]).Some? { ReadSameBodies(lines[1..], k - 1, line', Step(st, lines[0]).value); }
    }
  }

  // ----- A new allow table at the end of the block -----

  lemma ReadAllowAdded(lines: seq<string>, st: Body, header: string, argvLine: string, argv: seq<string>)
    requires ReadBody(lines, st).Some?
    requires Classify(header) == AllowHeader && Classify(argvLine) == Argv(argv)
    ensures var fin := ReadBody(lines, st).value;
            ReadBody(lines + [header, argvLine], st)
            == Some(Body(InAllow, fin.project.(allow := fin.project.allow + [Some(argv)]), fin.rest))
  {
    hide Classify, StripCr;
    var fin := ReadBody(lines, st).value;
    ReadBodyConcat(lines, [header, argvLine], st);
    assert [header, argvLine][1..] == [argvLine];
    var mid := Step(fin, header).value;
    ReadOne(mid, argvLine);
    assert mid.project.allow[..|fin.project.allow|] == fin.project.allow;
  }
}
