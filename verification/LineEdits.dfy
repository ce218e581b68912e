/** Line edits of one file version against its base: how they are read off a diff, and
    what applying a list of them to the base means (internal/httpapi/merge.go).

    The diff algorithm is not modelled. It enters as a script, any list of non-empty
    Equal, Delete and Insert runs whose two sides spell the base and the version. */
module LineEdits {
  import opened Basics

  /** One line of text, its newline included. */
  datatype Line = Line(text: string)

  datatype DiffRun = Equal(lines: seq<Line>) | Delete(lines: seq<Line>) | Insert(lines: seq<Line>)

  /** Replaces base[start..end] by the replacement. */
  datatype LineEdit = LineEdit(start: int, end: int, replacement: seq<Line>)

  // ---------------------------------------------------------------------------
  // Text and lines

  function Concat(lines: seq<Line>): (text: string)
  {
    if lines == [] then "" else lines[0].text + Concat(lines[1..])
  }

  lemma {:induction false} ConcatAppend(left: seq<Line>, right: seq<Line>)
    ensures Concat(left + right) == Concat(left) + Concat(right)
  {
    if left == [] {
      assert left + right == right;
    } else {
      assert (left + right)[1..] == left[1..] + right;
      ConcatAppend(left[1..], right);
    }
  }

  /** The length of the first line, its newline included. */
  function FirstLineLength(text: string): (n: nat)
    requires text != ""
    ensures 1 <= n <= |text|
    ensures forall i :: 0 <= i < n - 1 ==> text[i] != '\n'
    ensures n < |text| ==> text[n - 1] == '\n'
  {
    if text[0] == '\n' || |text| == 1 then 1 else 1 + FirstLineLength(text[1..])
  }

  function SplitLines(text: string): (lines: seq<Line>)
    decreases |text|
  {
    if text == "" then [] else
      var n := FirstLineLength(text);
      [Line(text[..n])] + SplitLines(text[n..])
  }

  /** A line is non-empty and holds a newline at most as its last character. */
  predicate IsLine(line: Line)
  {
    line.text != "" && forall i :: 0 <= i < |line.text| - 1 ==> line.text[i] != '\n'
  }

  predicate Terminated(line: Line)
  {
    line.text != "" && line.text[|line.text| - 1] == '\n'
  }

  /** Only the last line of a text may lack its newline. */
  predicate AreLines(lines: seq<Line>)
  {
    && (forall i :: 0 <= i < |lines| ==> IsLine(lines[i]))
    && (forall i :: 0 <= i < |lines| - 1 ==> Terminated(lines[i]))
  }

  lemma {:induction false} ConsAreLines(first: Line, rest: seq<Line>)
    requires IsLine(first) && AreLines(rest) && (rest == [] || Terminated(first))
    ensures AreLines([first] + rest)
  {
  }

  /** Splitting loses nothing and yields lines. */
  lemma {:induction false} SplitJoins(text: string)
    ensures Concat(SplitLines(text)) == text
    ensures AreLines(SplitLines(text))
    decreases |text|
  {
    if text != "" {
      var n := FirstLineLength(text);
      SplitJoins(text[n..]);
      assert text == text[..n] + text[n..];
      assert SplitLines(text)[1..] == SplitLines(text[n..]);
      ConsAreLines(Line(text[..n]), SplitLines(text[n..]));
    }
  }

  /** Lines are determined by their text, so splitting a decoded run gives back its lines. */
  lemma {:induction false} SplitInvertsConcat(lines: seq<Line>)
    requires AreLines(lines)
    ensures SplitLines(Concat(lines)) == lines
  {
    if lines != [] {
      var first, text, rest := lines[0].text, Concat(lines), Concat(lines[1..]);
      assert text == first + rest;
      SplitInvertsConcat(lines[1..]);
      var n := FirstLineLength(text);
      assert n == |first| by {
        assert forall i :: 0 <= i < |first| ==> text[i] == first[i];
        assert |lines| == 1 ==> rest == "";
        assert |lines| > 1 ==> text[|first| - 1] == '\n';
      }
      assert text[..n] == first && text[n..] == rest;
    }
  }

  method SplitTextLines(value: string) returns (lines: seq<Line>)
    ensures lines == SplitLines(value)
  {
    lines := [];
    var rest := value;
    while rest != ""
      invariant SplitLines(value) == lines + SplitLines(rest)
      decreases |rest|
    {
      var n := FirstLineLength(rest);
      lines := lines + [Line(rest[..n])];
      rest := rest[n..];
    }
  }

  // ---------------------------------------------------------------------------
  // Diff scripts and their edits

  function BaseSide(script: seq<DiffRun>): (lines: seq<Line>)
  {
    if script == [] then []
    else (if script[0].Insert? then [] else script[0].lines) + BaseSide(script[1..])
  }

  function VersionSide(script: seq<DiffRun>): (lines: seq<Line>)
  {
    if script == [] then []
    else (if script[0].Delete? then [] else script[0].lines) + VersionSide(script[1..])
  }

  predicate ValidScript(script: seq<DiffRun>, base: seq<Line>, version: seq<Line>)
  {
    && (forall run :: run in script ==> run.lines != [])
    && BaseSide(script) == base
    && VersionSide(script) == version
  }

  function Extend(pending: Option<LineEdit>, position: int, run: DiffRun): (edit: LineEdit)
    requires !run.Equal?
  {
    var open := if pending.Some? then pending.value else LineEdit(position, position, []);
    if run.Delete? then open.(end := open.end + |run.lines|)
    else open.(replacement := open.replacement + run.lines)
  }

  /** The edits of the rest of a script, with the edit that is still open, if any. */
  function EditsFrom(script: seq<DiffRun>, position: int, pending: Option<LineEdit>): (edits: seq<LineEdit>)
  {
    var flushed := if pending.Some? then [pending.value] else [];
    if script == [] then flushed
    else
      var run := script[0];
      match run
      case Equal(lines) => flushed + EditsFrom(script[1..], position + |lines|, None)
      case Delete(lines) => EditsFrom(script[1..], position + |lines|, Some(Extend(pending, position, run)))
      case Insert(_) => EditsFrom(script[1..], position, Some(Extend(pending, position, run)))
  }

  function ScriptEdits(script: seq<DiffRun>): (edits: seq<LineEdit>)
  {
    EditsFrom(script, 0, None)
  }

  method TextLineEdits(script: seq<DiffRun>) returns (edits: seq<LineEdit>)
    ensures edits == ScriptEdits(script)
  {
    edits := [];
    var position := 0;
    var pending: Option<LineEdit> := None;
    for i := 0 to |script|
      invariant ScriptEdits(script) == edits + EditsFrom(script[i..], position, pending)
    {
      var run := script[i];
      assert script[i..][0] == run && script[i..][1..] == script[i + 1..];
      match run {
        case Equal(lines) =>
          if pending.Some? {
            edits := edits + [pending.value];
            pending := None;
          }
          position := position + |lines|;
        case Delete(lines) =>
          pending := Some(Extend(pending, position, run));
          position := position + |lines|;
        case Insert(_) =>
          pending := Some(Extend(pending, position, run));
      }
    }
    if pending.Some? {
      edits := edits + [pending.value];
    }
  }

  // ---------------------------------------------------------------------------
  // Applying edits

  /** The single pass over the base, with its position and bounds check. */
  function ApplyEdits(lines: seq<Line>, position: int, edits: seq<LineEdit>): (result: Option<seq<Line>>)
    requires 0 <= position <= |lines|
    requires forall edit :: edit in edits ==> edit.start <= edit.end
    decreases |edits|
  {
    if edits == [] then Some(lines[position..])
    else
      var edit := edits[0];
      if edit.start < position || edit.start > |lines| || edit.end > |lines| then None
      else
        var rest := ApplyEdits(lines, edit.end, edits[1..]);
        if rest.None? then None
        else Some(lines[position..edit.start] + edit.replacement + rest.value)
  }

  /** Edits in order, none starting before the previous one ends, all inside n lines. */
  predicate Tight(position: int, edits: seq<LineEdit>, n: int)
    decreases |edits|
  {
    if edits == [] then position <= n
    else position <= edits[0].start <= edits[0].end <= n && Tight(edits[0].end, edits[1..], n)
  }

  /** What an edit list means: the base with every edited range replaced. */
  function Splice(lines: seq<Line>, position: int, edits: seq<LineEdit>): (result: seq<Line>)
    requires 0 <= position && Tight(position, edits, |lines|)
    decreases |edits|
  {
    if edits == [] then lines[position..]
    else lines[position..edits[0].start] + edits[0].replacement + Splice(lines, edits[0].end, edits[1..])
  }

  /** The check succeeds exactly on tight edit lists, and then the pass splices. */
  lemma {:induction false} ApplyIsSplice(lines: seq<Line>, position: int, edits: seq<LineEdit>)
    requires 0 <= position <= |lines|
    requires forall edit :: edit in edits ==> edit.start <= edit.end
    ensures ApplyEdits(lines, position, edits)
         == if Tight(position, edits, |lines|) then Some(Splice(lines, position, edits)) else None
    decreases |edits|
  {
    if edits != [] {
      var edit := edits[0];
      if position <= edit.start <= edit.end <= |lines| {
        ApplyIsSplice(lines, edit.end, edits[1..]);
      }
    }
  }

  /** Edits of one version: non-trivial and with an untouched line between neighbours. */
  predicate Chained(after: int, edits: seq<LineEdit>, n: int)
    decreases |edits|
  {
    edits == [] || (
      && after < edits[0].start <= edits[0].end <= n
      && (edits[0].start < edits[0].end || edits[0].replacement != [])
      && Chained(edits[0].end, edits[1..], n))
  }

  lemma {:induction false} ExtractionIsChained(script: seq<DiffRun>, position: int, pending: Option<LineEdit>,
                                               after: int, n: int)
    requires forall run :: run in script ==> run.lines != []
    requires n == position + |BaseSide(script)|
    requires pending.None? ==> after < position
    requires pending.Some? ==>
      && after < pending.value.start <= pending.value.end == position
      && (pending.value.start < pending.value.end || pending.value.replacement != [])
    ensures Chained(after, EditsFrom(script, position, pending), n)
  {
    if script != [] {
      var run := script[0];
      match run
      case Equal(lines) =>
        var close := if pending.Some? then pending.value.end else after;
        var edits := EditsFrom(script[1..], position + |lines|, None);
        ExtractionIsChained(script[1..], position + |lines|, None, close, n);
        if pending.Some? {
          assert EditsFrom(script, position, pending) == [pending.value] + edits;
        } else {
          assert EditsFrom(script, position, pending) == edits;
        }
      case Delete(lines) =>
        ExtractionIsChained(script[1..], position + |lines|, Some(Extend(pending, position, run)), after, n);
      case Insert(_) =>
        ExtractionIsChained(script[1..], position, Some(Extend(pending, position, run)), after, n);
    }
  }

  lemma {:induction false} ChainedIsTight(after: int, edits: seq<LineEdit>, n: int)
    requires Chained(after, edits, n) && after < n
    ensures Tight(after + 1, edits, n)
    ensures edits != [] ==> Tight(edits[0].start, edits, n)
    decreases |edits|
  {
    if edits != [] {
      if edits[1..] != [] {
        ChainedIsTight(edits[0].end, edits[1..], n);
        TightWeaken(edits[0].end + 1, edits[0].end, edits[1..], n);
      }
    }
  }

  lemma {:induction false} TightForward(position: int, edits: seq<LineEdit>, n: int)
    requires Tight(position, edits, n)
    ensures forall edit :: edit in edits ==> position <= edit.start <= edit.end <= n
    decreases |edits|
  {
    if edits != [] {
      TightForward(edits[0].end, edits[1..], n);
    }
  }

  lemma {:induction false} TightWeaken(position: int, earlier: int, edits: seq<LineEdit>, n: int)
    requires Tight(position, edits, n) && earlier <= position
    ensures Tight(earlier, edits, n)
  {
  }

  lemma {:induction false} SpliceCons(base: seq<Line>, from: int, edit: LineEdit, edits: seq<LineEdit>)
    requires 0 <= from <= edit.start <= edit.end <= |base| && Tight(edit.end, edits, |base|)
    ensures Tight(from, [edit] + edits, |base|)
    ensures Splice(base, from, [edit] + edits)
         == base[from..edit.start] + edit.replacement + Splice(base, edit.end, edits)
  {
    assert ([edit] + edits)[1..] == edits;
  }

  /** The edits of the rest of a script rebuild the rest of the version, after the text
      that the open edit, if any, already stands for. */
  lemma {:induction false} ExtractionRebuilds(base: seq<Line>, script: seq<DiffRun>, from: int, position: int,
                                              pending: Option<LineEdit>)
    requires 0 <= from <= position <= |base|
    requires base[position..] == BaseSide(script)
    requires pending.Some? ==> from <= pending.value.start <= pending.value.end == position
    requires Tight(from, EditsFrom(script, position, pending), |base|)
    ensures Splice(base, from, EditsFrom(script, position, pending))
         == OpenText(base, from, position, pending) + VersionSide(script)
    decreases |script|
  {
    if script == [] {
      EndRebuilds(base, from, position, pending);
    } else {
      var run, rest := script[0], script[1..];
      var next := position + |run.lines|;
      if run.Equal? {
        assert base[position..next] == run.lines && base[next..] == BaseSide(rest);
        FlushedTight(script, from, position, pending, |base|);
        ExtractionRebuilds(base, rest, if pending.Some? then position else from, next, None);
        EqualRunRebuilds(base, script, from, position, pending);
      } else {
        var open := Some(Extend(pending, position, run));
        var after := if run.Delete? then next else position;
        assert base[after..] == BaseSide(rest);
        ExtractionRebuilds(base, rest, from, after, open);
        ChangeRunRebuilds(base, script, from, position, pending, after);
      }
    }
  }

  lemma {:induction false} ChangeRunRebuilds(base: seq<Line>, script: seq<DiffRun>, from: int, position: int,
                                             pending: Option<LineEdit>, after: int)
    requires 0 <= from <= position <= after <= |base| && script != [] && !script[0].Equal?
    requires after == if script[0].Delete? then position + |script[0].lines| else position
    requires pending.Some? ==> from <= pending.value.start <= pending.value.end == position
    requires Tight(from, EditsFrom(script, position, pending), |base|)
    requires
      var open := Some(Extend(pending, position, script[0]));
      Splice(base, from, EditsFrom(script[1..], after, open)) == OpenText(base, from, after, open)
          + VersionSide(script[1..])
    ensures Splice(base, from, EditsFrom(script, position, pending))
         == OpenText(base, from, position, pending) + VersionSide(script)
  {
    if script[0].Insert? {
      InsertGrows(base, from, position, pending, script[0]);
      Assoc(OpenText(base, from, position, pending), script[0].lines, VersionSide(script[1..]));
    } else {
      assert VersionSide(script) == VersionSide(script[1..]);
    }
  }

  lemma {:induction false} EndRebuilds(base: seq<Line>, from: int, position: int, pending: Option<LineEdit>)
    requires 0 <= from <= position == |base|
    requires pending.Some? ==> from <= pending.value.start <= pending.value.end == position
    requires Tight(from, EditsFrom([], position, pending), |base|)
    ensures Splice(base, from, EditsFrom([], position, pending)) == OpenText(base, from, position, pending)
  {
    if pending.Some? {
      SpliceCons(base, from, pending.value, []);
      assert [pending.value] + [] == [pending.value];
    }
  }

  lemma {:induction false} InsertGrows(base: seq<Line>, from: int, position: int, pending: Option<LineEdit>,
                                       run: DiffRun)
    requires 0 <= from <= position <= |base| && run.Insert?
    requires pending.Some? ==> from <= pending.value.start <= position
    ensures OpenText(base, from, position, Some(Extend(pending, position, run)))
         == OpenText(base, from, position, pending) + run.lines
  {
    if pending.Some? {
      Assoc(base[from..pending.value.start], pending.value.replacement, run.lines);
    }
  }

  lemma {:induction false} FlushedTight(script: seq<DiffRun>, from: int, position: int, pending: Option<LineEdit>,
                                        n: int)
    requires script != [] && script[0].Equal?
    requires pending.Some? ==> pending.value.end == position
    requires Tight(from, EditsFrom(script, position, pending), n)
    ensures Tight(if pending.Some? then position else from,
                  EditsFrom(script[1..], position + |script[0].lines|, None), n)
  {
    var edits := EditsFrom(script[1..], position + |script[0].lines|, None);
    if pending.Some? {
      assert EditsFrom(script, position, pending) == [pending.value] + edits;
      assert ([pending.value] + edits)[1..] == edits;
    } else {
      assert EditsFrom(script, position, pending) == edits;
    }
  }

  lemma {:induction false} EqualRunRebuilds(base: seq<Line>, script: seq<DiffRun>, from: int, position: int,
                                            pending: Option<LineEdit>)
    requires 0 <= from <= position <= |base|
    requires script != [] && script[0].Equal?
    requires base[position..] == BaseSide(script)
    requires pending.Some? ==> from <= pending.value.start <= pending.value.end == position
    requires Tight(from, EditsFrom(script, position, pending), |base|)
    requires
      var resume, next := if pending.Some? then position else from, position + |script[0].lines|;
      var edits := EditsFrom(script[1..], next, None);
      && next <= |base|
      && Tight(resume, edits, |base|)
      && Splice(base, resume, edits) == base[resume..next] + VersionSide(script[1..])
    ensures Splice(base, from, EditsFrom(script, position, pending))
         == OpenText(base, from, position, pending) + VersionSide(script)
  {
    var lines, next := script[0].lines, position + |script[0].lines|;
    assert base[position..next] == lines;
    var edits, tail := EditsFrom(script[1..], next, None), VersionSide(script[1..]);
    if pending.Some? {
      assert EditsFrom(script, position, pending) == [pending.value] + edits;
      SpliceCons(base, from, pending.value, edits);
    } else {
      assert EditsFrom(script, position, pending) == edits;
      assert base[from..next] == base[from..position] + lines;
      Assoc(base[from..position], lines, tail);
    }
  }

  /** Concatenation regroups; the solver needs to be told. */
  lemma {:induction false} Assoc<T>(a: seq<T>, b: seq<T>, c: seq<T>)
    ensures a + b + c == a + (b + c)
  {
  }

  lemma {:induction false} Regroup<T>(a: seq<T>, b: seq<T>, c: seq<T>, d: seq<T>)
    ensures a + b + c + d == a + (b + c + d)
  {
  }

  function OpenText(base: seq<Line>, from: int, position: int, pending: Option<LineEdit>): (lines: seq<Line>)
    requires 0 <= from <= position <= |base|
    requires pending.Some? ==> from <= pending.value.start <= position
  {
    if pending.Some? then base[from..pending.value.start] + pending.value.replacement
    else base[from..position]
  }

  /** Edits extracted from any valid diff are chained inside the base. */
  lemma {:induction false} VersionEditsChained(base: seq<Line>, version: seq<Line>, script: seq<DiffRun>)
    requires ValidScript(script, base, version)
    ensures Chained(-1, ScriptEdits(script), |base|)
    ensures Tight(0, ScriptEdits(script), |base|)
    ensures forall edit :: edit in ScriptEdits(script) ==> edit.start <= edit.end
  {
    ExtractionIsChained(script, 0, None, -1, |base|);
    ChainedIsTight(-1, ScriptEdits(script), |base|);
    TightForward(0, ScriptEdits(script), |base|);
  }

  /** Extracting the edits of a version and applying them to the base gives the version back. */
  lemma {:induction false} ExtractThenApply(base: seq<Line>, version: seq<Line>, script: seq<DiffRun>)
    requires ValidScript(script, base, version)
    ensures forall edit :: edit in ScriptEdits(script) ==> edit.start <= edit.end
    ensures ApplyEdits(base, 0, ScriptEdits(script)) == Some(version)
  {
    VersionEditsChained(base, version, script);
    assert base[0..] == base;
    ExtractionRebuilds(base, script, 0, 0, None);
    assert OpenText(base, 0, 0, None) + version == version;
    ApplyIsSplice(base, 0, ScriptEdits(script));
  }
}
