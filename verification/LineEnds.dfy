/**
 The splices of internal/admin/policy.go that write new lines write them with the line endings
 of the file: a file with carriage returns keeps them on every line, one without gets none.
 */
module LineEnds {
  import opened Basics
  import opened Text
  import opened TomlStrings
  import opened Layout
  import opened Splice
  import opened Reading
  import Config

  /** Every newline comes with a carriage return. */
  predicate CrLf(t: string) { forall i :: 0 <= i < |t| && t[i] == '\n' ==> i > 0 && t[i - 1] == '\r' }

  predicate Lf(t: string) { '\r' !in t }

  /** Text written with this ending only. */
  predicate Ends(cr: string, t: string) { (cr == "\r" ==> CrLf(t)) && (cr == "" ==> Lf(t)) }

  lemma EndsConcat(cr: string, a: string, b: string)
    requires Ends(cr, a) && Ends(cr, b)
    ensures Ends(cr, a + b)
  {
    if cr == "\r" {
      forall i | 0 <= i < |a + b| && (a + b)[i] == '\n' ensures i > 0 && (a + b)[i - 1] == '\r' {
        if i >= |a| { assert b[i - |a|] == '\n'; }
      }
    }
  }

  lemma EndsPlain(cr: string, t: string)
    requires NoControl(t)
    ensures Ends(cr, t)
  {
  }

  lemma EndsLine(cr: string)
    requires cr in {"", "\r"}
    ensures Ends(cr, cr + "\n")
  {
    assert cr == "\r" ==> (cr + "\n")[0] == '\r' && (cr + "\n")[1] == '\n';
    assert "" + "\n" == "\n";
  }

  /** A line break in front of a text that does not start with one. */
  lemma EndsTail(cr: string, data: string, at: nat)
    requires at <= |data| && Ends(cr, data) && (at < |data| ==> data[at] != '\n')
    ensures Ends(cr, data[..at]) && Ends(cr, data[at..])
  {
    forall i | 0 <= i < |data[at..]| && data[at..][i] == '\n' && cr == "\r" ensures i > 0 && data[at..][i - 1] == '\r' {
      assert data[at + i] == '\n';
    }
  }

  lemma CrIs(data: string)
    ensures Cr(data) in {"", "\r"} && Newline(data) == Cr(data) + "\n"
  {
  }

  lemma InsertEnds(data: string, at: nat, text: string)
    requires at <= |data| && (at < |data| ==> data[at] != '\n')
    requires Ends(Cr(data), data) && Ends(Cr(data), text)
    ensures Ends(Cr(data), InsertLine(data, at, text))
  {
    hide HasCrLf, Ends;
    var cr := Cr(data);
    CrIs(data);
    EndsLine(cr);
    EndsPlain(cr, "");
    EndsTail(cr, data, at);
    var lead := if at > 0 && data[at - 1] != '\n' then Newline(data) else "";
    EndsConcat(cr, lead, text);
    EndsConcat(cr, data[..at], lead + text);
    EndsConcat(cr, data[..at] + (lead + text), data[at..]);
  }

  /** A matching line starts with its own first character. */
  lemma HitStarts(p: string -> bool, text: string, i: nat)
    requires i < |FindAll(p, text)| && !p("")
    ensures FindAll(p, text)[i].start < |text| && text[FindAll(p, text)[i].start] != '\n'
  {
    var lines := Split(text);
    JoinSplit(text);
    HitsMatch(p, lines, 0);
    var k := Hits(p, lines, 0)[i];
    hide Split, Hits, Join, Offset;
    LineAt(lines, k);
    assert lines[k] != "" && Newlineless(lines[k]);
    assert text[Offset(lines, k)] == text[Offset(lines, k)..Offset(lines, k) + |lines[k]|][0];
  }

  lemma NotHeaders()
    ensures !IsProjectHeader("") && !IsAllowHeader("")
  {
  }

  lemma EndStarts(data: string, count: nat, i: int)
    requires ProjectBounds(data, count, i).Some?
    ensures var (start, end) := ProjectBounds(data, count, i).value;
            start <= end <= |data| && (end < |data| ==> data[end] != '\n')
  {
    hide FindAll, IsProjectHeader;
    BoundsInText(data, count, i);
    NotHeaders();
    var headers := FindAll(IsProjectHeader, data);
    if i + 1 < |headers| { HitStarts(IsProjectHeader, data, i + 1); }
  }

  lemma EntryEnds(argv: seq<string>, cr: string)
    requires argv != [] && cr in {"", "\r"}
    ensures Ends(cr, AllowEntryText(argv, cr + "\n"))
  {
    hide JsonArray, Ends;
    ArgvNoControl(argv);
    var a, b := "  [[projects.allow]]", "  argv = " + JsonArray(argv);
    EndsPlain(cr, a);
    EndsPlain(cr, b);
    EndsLine(cr);
    EndsConcat(cr, a, cr + "\n");
    EndsConcat(cr, b, cr + "\n");
    EndsConcat(cr, a + (cr + "\n"), b + (cr + "\n"));
    assert AllowEntryText(argv, cr + "\n") == (a + (cr + "\n")) + (b + (cr + "\n"));
  }

  /** insertAllowEntry keeps uniform line endings. */
  lemma InsertAllowEnds(data: string, count: nat, i: int, allowCount: nat, argv: seq<string>, u: string)
    requires argv != [] && InsertAllow(data, count, i, allowCount, argv) == Some(u) && Ends(Cr(data), data)
    ensures Ends(Cr(data), u)
  {
    hide ProjectBounds, FindAll, AllowEntryText, HasCrLf, Ends, InsertLine;
    CrIs(data);
    EndStarts(data, count, i);
    EntryEnds(argv, Cr(data));
    InsertEnds(data, ProjectBounds(data, count, i).value.1, AllowEntryText(argv, Newline(data)));
  }

  /** A field's value ends before the carriage return of its line. */
  lemma ValueBeforeCr(key: string, line: string)
    requires IsFieldLine(key, line)
    ensures var (a, b) := FieldValue(key, line).value;
            a <= b <= |line| && b > 0 && (b == |line| ==> line[b - 1] != '\r')
  {
  }

  /** Position `at + b` of a block, b characters into one of its lines. */
  lemma InLine(data: string, start: nat, end: nat, line: string, at: nat, b: nat)
    requires start <= end <= |data| && CrLf(data) && (end < |data| ==> data[end] != '\n')
    requires at + |line| <= end - start && data[start + at..start + at + |line|] == line && Newlineless(line)
    requires 0 < b <= |line| && (b == |line| ==> line[b - 1] != '\r')
    ensures start + at + b < |data| ==> data[start + at + b] != '\n'
  {
    if b < |line| {
      assert data[start + at + b] == line[b];
    } else {
      assert data[start + at + b - 1] == line[b - 1];
    }
  }

  lemma LineIn(data: string, start: nat, end: nat, at: nat, n: nat)
    requires start <= end <= |data| && at + n <= end - start
    ensures data[start..end][at..at + n] == data[start + at..start + at + n]
  {
    var block := data[start..end];
    var a, b := block[at..at + n], data[start + at..start + at + n];
    assert |a| == |b|;
    forall i | 0 <= i < n ensures a[i] == b[i] {
      assert a[i] == block[at + i] == data[start + at + i];
    }
  }

  lemma SpanIs(block: string, start: nat, key: string, k: nat)
    requires k < |Split(block)| && IsFieldLine(key, Split(block)[k])
    ensures ValueSpan(block, start, key, k).end
            == start + Offset(Split(block), k) + FieldValue(key, Split(block)[k]).value.1
  {
  }

  lemma LineOf(block: string, k: nat) returns (line: string, at: nat)
    requires k < |Split(block)|
    ensures line == Split(block)[k] && at == Offset(Split(block), k) && Newlineless(line)
    ensures at + |line| <= |block| && block[at..at + |line|] == line
  {
    JoinSplit(block);
    line, at := Split(block)[k], Offset(Split(block), k);
    hide Split, Join, Offset;
    LineAt(Split(block), k);
  }

  lemma ValueEnds(data: string, start: nat, end: nat, key: string, k: nat)
    requires start <= end <= |data| && CrLf(data) && (end < |data| ==> data[end] != '\n')
    requires k < |Split(data[start..end])| && IsFieldLine(key, Split(data[start..end])[k])
    ensures var s := ValueSpan(data[start..end], start, key, k);
            s.end <= |data| && (s.end < |data| ==> data[s.end] != '\n')
  {
    hide Split, Offset, FieldValue, CrLf, Newlineless, ValueSpan, IsFieldLine;
    var block := data[start..end];
    SpanIs(block, start, key, k);
    var line, at := LineOf(block, k);
    LineIn(data, start, end, at, |line|);
    ValueInLine(data, start, end, key, line, at);
  }

  lemma ValueInLine(data: string, start: nat, end: nat, key: string, line: string, at: nat)
    requires start <= end <= |data| && CrLf(data) && (end < |data| ==> data[end] != '\n')
    requires at + |line| <= end - start && data[start + at..start + at + |line|] == line && Newlineless(line)
    requires IsFieldLine(key, line)
    ensures var e := start + at + FieldValue(key, line).value.1;
            e <= |data| && (e < |data| ==> data[e] != '\n')
  {
    hide CrLf, Newlineless;
    ValueBeforeCr(key, line);
    hide FieldValue;
    InLine(data, start, end, line, at, FieldValue(key, line).value.1);
  }

  lemma ReplaceEnds(data: string, a: nat, b: nat, w: string, cr: string)
    requires a <= b <= |data| && Ends(cr, data) && NoControl(w) && (cr == "\r" && b < |data| ==> data[b] != '\n')
    requires cr in {"", "\r"}
    ensures Ends(cr, ReplaceSpan(data, a, b, w))
  {
    assert Ends(cr, data[..a]);
    assert Ends(cr, data[b..]) by { if cr == "\r" { EndsTail(cr, data, b); } }
    EndsPlain(cr, w);
    hide Ends;
    EndsConcat(cr, data[..a], w);
    EndsConcat(cr, data[..a] + w, data[b..]);
  }

  /** replaceApproval keeps uniform line endings, whether it rewrites a line or inserts one. */
  lemma ReplaceApprovalEnds(data: string, count: nat, i: int, approval: string, u: string)
    requires ReplaceApproval(data, count, i, approval) == Some(u) && NoControl(approval) && Ends(Cr(data), data)
    ensures Ends(Cr(data), u)
  {
    hide ProjectBounds, FieldHits, ValueSpan, ApprovalInsertAt, HasCrLf, InsertLine;
    CrIs(data);
    EndStarts(data, count, i);
    var (start, end) := ProjectBounds(data, count, i).value;
    var block := data[start..end];
    var hits := FieldHits("approval", block);
    if |hits| == 1 {
      var s := ValueSpan(block, start, "approval", hits[0]);
      if Cr(data) == "\r" { ValueEnds(data, start, end, "approval", hits[0]); }
      ReplaceEnds(data, s.start, s.end, "\"" + approval + "\"", Cr(data));
    } else {
      var at := ApprovalInsertAt(block, start);
      InsertAtStarts(data, start, end);
      ApprovalEnds(approval, Cr(data));
      InsertEnds(data, at, ApprovalLine(approval) + Newline(data));
    }
  }

  lemma InsertAtStarts(data: string, start: nat, end: nat)
    requires start <= end <= |data| && (end < |data| ==> data[end] != '\n')
    ensures var at := ApprovalInsertAt(data[start..end], start);
            at < |data| ==> data[at] != '\n'
  {
    hide FindAll, IsAllowHeader;
    NotHeaders();
    var spans := FindAll(IsAllowHeader, data[start..end]);
    if spans != [] { HitStarts(IsAllowHeader, data[start..end], 0); }
  }

  lemma ApprovalEnds(approval: string, cr: string)
    requires NoControl(approval) && cr in {"", "\r"}
    ensures Ends(cr, ApprovalLine(approval) + (cr + "\n"))
  {
    EndsPlain(cr, ApprovalLine(approval));
    EndsLine(cr);
    hide Ends, ApprovalLine;
    EndsConcat(cr, ApprovalLine(approval), cr + "\n");
  }

  // ----- appendProject -----

  lemma {:induction false} TerminatedEnds(lines: seq<string>, cr: string)
    requires cr in {"", "\r"}
    requires forall i :: 0 <= i < |lines| ==> Ends(cr, lines[i] + "\n")
    ensures Ends(cr, Terminated(lines))
  {
    if lines == [] {
      EndsPlain(cr, "");
    } else {
      TerminatedEnds(lines[1..], cr);
      assert Ends(cr, lines[0] + "\n");
      hide Ends;
      EndsConcat(cr, lines[0] + "\n", Terminated(lines[1..]));
    }
  }

  lemma PlainLineEnds(body: string, cr: string)
    requires NoControl(body) && cr in {"", "\r"}
    ensures Ends(cr, (body + cr) + "\n")
  {
    EndsPlain(cr, body);
    EndsLine(cr);
    hide Ends;
    EndsConcat(cr, body, cr + "\n");
    assert body + (cr + "\n") == (body + cr) + "\n";
  }

  lemma FieldLineEnds(name: string, value: string, cr: string)
    requires NoControl(name) && cr in {"", "\r"}
    ensures Ends(cr, (name + JsonString(value) + cr) + "\n")
  {
    JsonNoControl(value);
    hide Ends, JsonString;
    NoControlConcat(name, JsonString(value));
    PlainLineEnds(name + JsonString(value), cr);
  }

  lemma FieldNames()
    ensures NoControl("alias = ") && NoControl("bws_project_id = ") && NoControl("token_entry = ")
            && NoControl("working_dir = ")
  {
  }

  lemma ProjectLinesEnd(p: Config.Project, cr: string)
    requires cr in {"", "\r"}
    ensures Ends(cr, Terminated(NewProjectLines(p, cr)))
  {
    PlainLineEnds("[[projects]]", cr);
    PlainLineEnds(ApprovalLine(Config.ApprovalAllowlistedPrompt), cr);
    FieldNames();
    hide Ends, JsonString, Terminated, ApprovalLine, NoControl;
    FieldLineEnds("alias = ", p.alias, cr);
    FieldLineEnds("bws_project_id = ", p.bwsProjectId, cr);
    FieldLineEnds("token_entry = ", p.tokenEntry, cr);
    FieldLineEnds("working_dir = ", p.workingDir, cr);
    TerminatedEnds(NewProjectLines(p, cr), cr);
  }

  /** appendProject keeps uniform line endings. */
  lemma AppendProjectEnds(data: string, p: Config.Project)
    requires Ends(Cr(data), data)
    ensures Ends(Cr(data), AppendProject(data, p))
  {
    hide HasCrLf, Ends, NewProjectLines, Terminated, EndsWith;
    var cr := Cr(data);
    CrIs(data);
    EndsLine(cr);
    ProjectLinesEnd(p, cr);
    var newline := Newline(data);
    var ended := if data != "" && !EndsWith(data, newline) then data + newline else data;
    EndsConcat(cr, data, newline);
    var spaced := if ended != "" && !EndsWith(ended, newline + newline) then ended + newline else ended;
    EndsConcat(cr, ended, newline);
    EndsConcat(cr, spaced, Terminated(NewProjectLines(p, cr)));
  }

  /** A file with a carriage return before a newline gets carriage returns, any other none. */
  lemma EndsMean(data: string)
    ensures Cr(data) == "\r" <==> exists i :: 0 < i < |data| && data[i - 1] == '\r' && data[i] == '\n'
    ensures CrLf(data) && '\n' in data ==> Ends(Cr(data), data) && Cr(data) == "\r"
    ensures Lf(data) ==> Ends(Cr(data), data) && Cr(data) == ""
  {
    if HasCrLf(data) {
      var i :| 0 <= i < |data| - 1 && data[i] == '\r' && data[i + 1] == '\n';
      assert data[(i + 1) - 1] == '\r';
    }
    if i :| 0 < i < |data| && data[i - 1] == '\r' && data[i] == '\n' {
      assert data[(i - 1) + 1] == '\n';
    }
    if CrLf(data) && '\n' in data {
      var i :| 0 <= i < |data| && data[i] == '\n';
      assert data[i - 1] == '\r' && data[(i - 1) + 1] == '\n';
    }
  }
}
