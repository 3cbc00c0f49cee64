// The rewriting of DAGMan's nodes log before a resubmission, AdjustSites.py: post scripts of jobs that are to
// run again get another return value.
module AdjustSites {
  import opened Canonical

  type JobId = string

  // What the patterns say of a line: "...", the event of a post script, its return value, the node of a
  // job, or none of these.
  datatype Kind = Terminator | PostEvent | ReturnValue(two: bool) | Node(id: JobId) | Other

  datatype Line = Line(text: string, kind: Kind)

  // The line that is put in place of a return value. It is none that the patterns look for.
  const REWRITTEN := Line("        (1) Normal termination (return value 1)\n", Other)

  // Which jobs: all that failed, or those of a list.
  datatype Which = AllFailed | Jobs(ids: seq<JobId>)

  // Return values of 2, and for listed jobs also 0.
  predicate Eligible(l: Line, which: Which) {
    l.kind.ReturnValue? && (which.AllFailed? ==> l.kind.two)
  }

  predicate Selected(id: JobId, which: Which) {
    which.AllFailed? || id in which.ids
  }

  // ---- what the rewriting amounts to ----

  // How many lines belong together at the start: up to four, as far as they follow the pattern, and the
  // first that does not.
  function Stretch(lines: seq<Line>, which: Which): (n: nat)
    requires lines != []
    ensures 0 < n <= |lines| && n <= 4
  {
    if !lines[0].kind.Terminator? || |lines| == 1 then 1
    else if !lines[1].kind.PostEvent? || |lines| == 2 then 2
    else if !Eligible(lines[2], which) || |lines| == 3 then 3
    else 4
  }

  // The lines after rewriting and the ids of the jobs, or None for the exception where no node follows a
  // return value.
  datatype Result = Crash | Done(lines: seq<Line>, ids: seq<JobId>)

  // A log that ends with a return value, before the line of its node.
  predicate CutOff(lines: seq<Line>, which: Which) {
    |lines| == 3 && Stretch(lines, which) == 3 && Eligible(lines[2], which)
  }

  // The whole rewriting, with four lines in view.
  function Rewrite(lines: seq<Line>, which: Which): Result
    decreases |lines|
  {
    if lines == [] then Done([], [])
    else
      var n := Stretch(lines, which);
      var rest := Rewrite(lines[n..], which);
      if n == 4 && !lines[3].kind.Node? then Crash
      else if rest.Crash? then Crash
      else if n == 4 && Selected(lines[3].kind.id, which) then
        Done([lines[0], lines[1], REWRITTEN, lines[3]] + rest.lines, [lines[3].kind.id] + rest.ids)
      else if CutOff(lines, which) then Done([lines[0], lines[1], REWRITTEN], [])
      else Done(lines[..n] + rest.lines, rest.ids)
  }

  function Prepend(lines: seq<Line>, ids: seq<JobId>, r: Result): Result {
    if r.Crash? then Crash else Done(lines + r.lines, ids + r.ids)
  }

  // ---- the program: one line at a time, with a buffer for those that may have to change ----

  // The n lines from the start of a stretch on are in the buffer, the third of them rewritten.
  ghost predicate Buffered(lines: seq<Line>, n: int, buffer: seq<Line>, alt: Option<Line>, which: Which) {
    && 0 <= n == |buffer| <= |lines| && n <= 3
    && (n > 0 ==> lines[0].kind.Terminator? && buffer[0] == lines[0])
    && (n > 1 ==> lines[1].kind.PostEvent? && buffer[1] == lines[1])
    && (n > 2 ==> Eligible(lines[2], which) && buffer[2] == REWRITTEN && alt == Some(lines[2]))
  }

  // A stretch of which the pattern does not go on ends with the line in hand.
  lemma StretchKept(lines: seq<Line>, buffer: seq<Line>, alt: Option<Line>, which: Which, out: seq<Line>,
                    ids: seq<JobId>)
    requires Buffered(lines, |buffer|, buffer, alt, which) && |buffer| < |lines|
    requires var l := lines[|buffer|];
             match |buffer|
             case 0 => !l.kind.Terminator?
             case 1 => !l.kind.PostEvent?
             case 2 => !Eligible(l, which)
             case _ => l.kind.Node? && !Selected(l.kind.id, which)
    ensures Prepend(out, ids, Rewrite(lines, which))
         == Prepend(out + lines[..|buffer| + 1], ids, Rewrite(lines[|buffer| + 1..], which))
  {
    var n := |buffer| + 1;
    assert Stretch(lines, which) == n;
    var rest := Rewrite(lines[n..], which);
    if rest.Done? {
      assert out + (lines[..n] + rest.lines) == out + lines[..n] + rest.lines;
    }
  }

  lemma StretchChanged(lines: seq<Line>, buffer: seq<Line>, alt: Option<Line>, which: Which, out: seq<Line>,
                       ids: seq<JobId>)
    requires Buffered(lines, 3, buffer, alt, which) && 3 < |lines|
    requires lines[3].kind.Node? && Selected(lines[3].kind.id, which)
    ensures Prepend(out, ids, Rewrite(lines, which))
         == Prepend(out + buffer + [lines[3]], ids + [lines[3].kind.id], Rewrite(lines[4..], which))
  {
    assert Stretch(lines, which) == 4;
    var rest := Rewrite(lines[4..], which);
    if rest.Done? {
      var four := [lines[0], lines[1], REWRITTEN, lines[3]];
      assert buffer + [lines[3]] == four;
      assert out + (four + rest.lines) == out + buffer + [lines[3]] + rest.lines;
      assert ids + ([lines[3].kind.id] + rest.ids) == ids + [lines[3].kind.id] + rest.ids;
    }
  }

  lemma StretchCrashes(lines: seq<Line>, buffer: seq<Line>, alt: Option<Line>, which: Which)
    requires Buffered(lines, 3, buffer, alt, which) && 3 < |lines| && !lines[3].kind.Node?
    ensures Rewrite(lines, which) == Crash
  {
    assert Stretch(lines, which) == 4;
  }

  // At the end of the log the buffer is written as it is.
  lemma LastStretch(lines: seq<Line>, buffer: seq<Line>, alt: Option<Line>, which: Which)
    requires Buffered(lines, |lines|, buffer, alt, which)
    ensures Rewrite(lines, which) == Done(buffer, [])
  {
    if lines != [] {
      assert Stretch(lines, which) == |lines| && lines[|lines|..] == [];
      if |lines| < 3 {
        assert lines[..|lines|] + [] == lines == buffer;
      } else {
        assert buffer == [lines[0], lines[1], REWRITTEN];
      }
    }
  }

  // One turn of the loop: a stretch goes on, or ends and is written.
  method Feed(line: Line, which: Which, buffer0: seq<Line>, alt0: Option<Line>, output0: seq<Line>,
              adjusted0: seq<JobId>, ghost here: seq<Line>)
    returns (buffer: seq<Line>, alt: Option<Line>, output: seq<Line>, adjusted: seq<JobId>, crashed: bool)
    requires Buffered(here, |buffer0|, buffer0, alt0, which) && |buffer0| < |here| && line == here[|buffer0|]
    ensures crashed ==> Rewrite(here, which) == Crash
    ensures !crashed && buffer != [] ==>
              && |buffer| == |buffer0| + 1 && Buffered(here, |buffer|, buffer, alt, which)
              && output == output0 && adjusted == adjusted0
    ensures !crashed && buffer == [] ==>
              Prepend(output0, adjusted0, Rewrite(here, which))
              == Prepend(output, adjusted, Rewrite(here[|buffer0| + 1..], which))
  {
    hide Rewrite, Eligible, Selected, Prepend;
    buffer, alt, output, adjusted, crashed := buffer0, alt0, output0, adjusted0, false;
    ghost var n := |buffer0| + 1;
    if |buffer| == 0 {
      if line.kind.Terminator? {
        buffer := buffer + [line];
      } else {
        StretchKept(here, buffer0, alt0, which, output0, adjusted0);
        output := output + [line];
        assert output == output0 + here[..n];
      }
    } else if |buffer| == 1 {
      if line.kind.PostEvent? {
        buffer := buffer + [line];
      } else {
        StretchKept(here, buffer0, alt0, which, output0, adjusted0);
        output := output + buffer;
        output := output + [line];
        assert output == output0 + here[..n];
        buffer := [];
      }
    } else if |buffer| == 2 {
      if Eligible(line, which) {
        buffer := buffer + [REWRITTEN];
        alt := Some(line);
      } else {
        StretchKept(here, buffer0, alt0, which, output0, adjusted0);
        output := output + buffer;
        output := output + [line];
        assert output == output0 + here[..n];
        buffer := [];
      }
    } else {
      if !line.kind.Node? {
        StretchCrashes(here, buffer0, alt0, which);
        crashed := true;
        return;
      }
      if Selected(line.kind.id, which) {
        StretchChanged(here, buffer0, alt0, which, output0, adjusted0);
        adjusted := adjusted + [line.kind.id];
        output := output + buffer;
      } else {
        StretchKept(here, buffer0, alt0, which, output0, adjusted0);
        output := output + buffer[..|buffer| - 1];
        output := output + [alt.value];
        assert output + [line] == output0 + here[..n];
      }
      output := output + [line];
      buffer := [];
    }
  }

  // What the program makes of a log. Without jobs it does not look at it.
  function Adjusted(lines: seq<Line>, which: Which): Result {
    if which == Jobs([]) then Done(lines, []) else Rewrite(lines, which)
  }

  // A sequence at the start of a log: if all failed jobs are to run again a return value of 2 is changed, and
  // else one of 0 or 2 of a job that is listed.
  lemma FirstSequence(t: Line, p: Line, v: Line, n: Line, two: bool, id: JobId, after: seq<Line>, which: Which)
    requires t.kind == Terminator && p.kind == PostEvent && v.kind == ReturnValue(two) && n.kind == Node(id)
    ensures Adjusted([t, p, v, n] + after, which)
         == var changed := match which case AllFailed => two case Jobs(ids) => id in ids;
            var one := Line("        (1) Normal termination (return value 1)\n", Other);
            if changed then Prepend([t, p, one, n], [id], Adjusted(after, which))
            else Prepend([t, p, v, n], [], Adjusted(after, which))
  {
    hide Rewrite;
    var lines := [t, p, v, n] + after;
    if which == Jobs([]) {
      PrependIds([t, p, v, n], Done(after, []));
    } else if Eligible(v, which) {
      assert lines[4..] == after && lines[..4] == [t, p, v, n];
      FourLines(lines, which);
    } else {
      assert lines[3..] == [n] + after && lines[..3] == [t, p, v];
      ThreeLines(lines, which);
      LoneLine(n, after, which);
      var rest := Rewrite(after, which);
      if rest.Done? {
        assert [t, p, v] + ([n] + rest.lines) == [t, p, v, n] + rest.lines && [] + rest.ids == rest.ids;
      }
    }
  }

  lemma FourLines(lines: seq<Line>, which: Which)
    requires |lines| >= 4 && Stretch(lines, which) == 4 && lines[3].kind.Node?
    ensures Rewrite(lines, which)
         == if Selected(lines[3].kind.id, which) then
              Prepend([lines[0], lines[1], REWRITTEN, lines[3]], [lines[3].kind.id], Rewrite(lines[4..], which))
            else Prepend(lines[..4], [], Rewrite(lines[4..], which))
  {
    PrependIds(lines[..4], Rewrite(lines[4..], which));
  }

  lemma ThreeLines(lines: seq<Line>, which: Which)
    requires |lines| > 3 && Stretch(lines, which) == 3
    ensures Rewrite(lines, which) == Prepend(lines[..3], [], Rewrite(lines[3..], which))
  {
    PrependIds(lines[..3], Rewrite(lines[3..], which));
  }

  lemma LoneLine(n: Line, after: seq<Line>, which: Which)
    requires !n.kind.Terminator?
    ensures Rewrite([n] + after, which) == Prepend([n], [], Rewrite(after, which))
  {
    var lines := [n] + after;
    assert lines[1..] == after && lines[..1] == [n];
    PrependIds([n], Rewrite(after, which));
  }

  lemma PrependIds(lines: seq<Line>, r: Result)
    ensures Prepend(lines, [], r) == if r.Crash? then Crash else Done(lines + r.lines, r.ids)
  {
    assert r.Done? ==> [] + r.ids == r.ids;
  }

  method AdjustPostScriptExitStatus(lines: seq<Line>, which: Which) returns (r: Result)
    ensures r == Adjusted(lines, which)
  {
    if which == Jobs([]) {
      return Done(lines, []);
    }
    hide Rewrite, Prepend, Buffered;
    var buffer: seq<Line> := [];
    var alt: Option<Line> := None;
    var output: seq<Line> := [];
    var adjusted: seq<JobId> := [];
    var crashed := false;
    ghost var start := 0;
    var i := 0;
    PrependNothing(Rewrite(lines, which));
    NothingBuffered(lines, alt, which);
    assert lines[0..] == lines;
    while i < |lines|
      invariant 0 <= start <= i <= |lines| && |buffer| <= 3
      invariant i - start == |buffer| && Buffered(lines[start..], |buffer|, buffer, alt, which)
      invariant Rewrite(lines, which) == Prepend(output, adjusted, Rewrite(lines[start..], which))
    {
      assert lines[start..][i - start + 1..] == lines[i + 1..];
      buffer, alt, output, adjusted, crashed := Feed(lines[i], which, buffer, alt, output, adjusted, lines[start..]);
      if crashed {
        return Crash;
      }
      i := i + 1;
      if buffer == [] {
        start := i;
        NothingBuffered(lines[start..], alt, which);
      }
    }
    assert |lines[start..]| == |buffer|;
    LastStretch(lines[start..], buffer, alt, which);
    PrependLast(output, adjusted, buffer);
    output := output + buffer;
    r := Done(output, adjusted);
  }

  lemma PrependLast(output: seq<Line>, adjusted: seq<JobId>, buffer: seq<Line>)
    ensures Prepend(output, adjusted, Done(buffer, [])) == Done(output + buffer, adjusted)
  {
    assert adjusted + [] == adjusted;
  }

  // Nothing is in the buffer at the start.
  lemma NothingBuffered(lines: seq<Line>, alt: Option<Line>, which: Which)
    ensures Buffered(lines, 0, [], alt, which)
  {
  }

  lemma PrependNothing(r: Result)
    ensures Prepend([], [], r) == r
  {
    if r.Done? {
      assert [] + r.lines == r.lines && [] + r.ids == r.ids;
    }
  }

  // ---- what it keeps and what it changes ----

  // A line is kept; or it is the return value in the sequence of a selected job, and rewritten; or the
  // log ends with it.
  ghost predicate Changed(lines: seq<Line>, i: nat, which: Which)
    requires i < |lines|
  {
    && 2 <= i && lines[i - 2].kind.Terminator? && lines[i - 1].kind.PostEvent? && Eligible(lines[i], which)
    && (i + 1 < |lines| ==> lines[i + 1].kind.Node? && Selected(lines[i + 1].kind.id, which))
  }

  ghost predicate KeptOrChanged(lines: seq<Line>, out: seq<Line>, which: Which) {
    && |out| == |lines|
    && forall i :: 0 <= i < |lines| ==> out[i] == lines[i] || (out[i] == REWRITTEN && Changed(lines, i, which))
  }

  lemma KeptOrChangedNext(lines: seq<Line>, head: seq<Line>, tail: seq<Line>, n: nat, which: Which)
    requires |head| == n <= |lines| && KeptOrChanged(lines[n..], tail, which)
    requires forall i :: 0 <= i < n ==> head[i] == lines[i] || (head[i] == REWRITTEN && Changed(lines, i, which))
    ensures KeptOrChanged(lines, head + tail, which)
  {
    forall i | n <= i < |lines| && tail[i - n] != lines[i]
      ensures Changed(lines, i, which)
    {
      assert Changed(lines[n..], i - n, which);
    }
  }

  lemma ChangedHere(lines: seq<Line>, which: Which)
    requires lines != []
    ensures Stretch(lines, which) == 4 && lines[3].kind.Node? && Selected(lines[3].kind.id, which) ==>
              Changed(lines, 2, which)
    ensures CutOff(lines, which) ==> Changed(lines, 2, which)
  {
    hide Eligible, Selected;
  }

  lemma NothingChanged(which: Which)
    ensures KeptOrChanged([], [], which)
  {
  }

  // Number and order of the lines are kept, and nothing but return values of selected jobs is changed.
  lemma {:induction false} OnlySelectedChange(lines: seq<Line>, which: Which)
    requires Rewrite(lines, which).Done?
    ensures KeptOrChanged(lines, Rewrite(lines, which).lines, which)
    decreases |lines|
  {
    hide Eligible, Selected, KeptOrChanged, Changed, Stretch;
    if lines == [] {
      NothingChanged(which);
    } else {
      var n := Stretch(lines, which);
      OnlySelectedChange(lines[n..], which);
      var rest := Rewrite(lines[n..], which).lines;
      ChangedHere(lines, which);
      if n == 4 && Selected(lines[3].kind.id, which) {
        KeptOrChangedNext(lines, [lines[0], lines[1], REWRITTEN, lines[3]], rest, 4, which);
      } else if CutOff(lines, which) {
        assert lines[3..] == [];
        KeptOrChangedNext(lines, [lines[0], lines[1], REWRITTEN], [], 3, which);
        assert [lines[0], lines[1], REWRITTEN] + [] == [lines[0], lines[1], REWRITTEN];
      } else {
        KeptOrChangedNext(lines, lines[..n], rest, n, which);
      }
    }
  }

  // The jobs of the changed return values from line i on, in the order of the log.
  function ChangedIds(lines: seq<Line>, out: seq<Line>, i: nat): seq<JobId>
    requires |lines| == |out|
    decreases |lines| - i
  {
    if i + 1 >= |lines| then []
    else
      (if out[i] != lines[i] && lines[i + 1].kind.Node? then [lines[i + 1].kind.id] else [])
      + ChangedIds(lines, out, i + 1)
  }

  lemma {:induction false} ChangedIdsTail(lines: seq<Line>, out: seq<Line>, n: nat, i: nat)
    requires |lines| == |out| && n <= i <= |lines|
    ensures ChangedIds(lines, out, i) == ChangedIds(lines[n..], out[n..], i - n)
    decreases |lines| - i
  {
    if i + 1 < |lines| {
      assert lines[n..][i - n] == lines[i] && out[n..][i - n] == out[i] && lines[n..][i + 1 - n] == lines[i + 1];
      ChangedIdsTail(lines, out, n, i + 1);
    }
  }

  lemma {:induction false} ChangedIdsSkip(lines: seq<Line>, out: seq<Line>, n: nat, i: nat)
    requires |lines| == |out| && i <= n <= |lines| && forall k :: i <= k < n ==> lines[k] == out[k]
    ensures ChangedIds(lines, out, i) == ChangedIds(lines, out, n)
    decreases n - i
  {
    if i < n {
      ChangedIdsSkip(lines, out, n, i + 1);
    }
  }

  // The ids returned are those of the changed return values.
  lemma {:induction false} IdsAreChanged(lines: seq<Line>, which: Which)
    requires Rewrite(lines, which).Done?
    ensures |Rewrite(lines, which).lines| == |lines|
    ensures Rewrite(lines, which).ids == ChangedIds(lines, Rewrite(lines, which).lines, 0)
    decreases |lines|
  {
    hide Selected, Eligible;
    OnlySelectedChange(lines, which);
    if lines != [] {
      var n, out := Stretch(lines, which), Rewrite(lines, which).lines;
      if n == 4 && Selected(lines[3].kind.id, which) {
        IdsHere(lines, which);
        RewriteTail(lines, which);
        IdsAreChanged(lines[4..], which);
        ChangedIdsTail(lines, out, 4, 4);
      } else if CutOff(lines, which) {
        assert out[0] == lines[0] && out[1] == lines[1];
        ChangedIdsSkip(lines, out, 2, 0);
      } else {
        var rest := Rewrite(lines[n..], which).lines;
        IdsAreChanged(lines[n..], which);
        assert forall k :: 0 <= k < n ==> out[k] == lines[k];
        assert out[n..] == rest;
        ChangedIdsSkip(lines, out, n, 0);
        ChangedIdsTail(lines, out, n, n);
      }
    }
  }

  lemma IdsHere(lines: seq<Line>, which: Which)
    requires lines != [] && Stretch(lines, which) == 4
    requires Rewrite(lines, which).Done? && |Rewrite(lines, which).lines| == |lines|
    requires lines[3].kind.Node? && Selected(lines[3].kind.id, which)
    ensures Rewrite(lines[4..], which).Done?
    ensures Rewrite(lines, which).ids == [lines[3].kind.id] + Rewrite(lines[4..], which).ids
    ensures ChangedIds(lines, Rewrite(lines, which).lines, 0)
         == [lines[3].kind.id] + ChangedIds(lines, Rewrite(lines, which).lines, 4)
  {
    hide Selected;
    var out := Rewrite(lines, which).lines;
    assert out[0] == lines[0] && out[1] == lines[1] && out[2] == REWRITTEN != lines[2] && out[3] == lines[3];
    ChangedIdsSkip(lines, out, 2, 0);
    ChangedIdsSkip(lines, out, 4, 3);
  }

  // After a rewriting the sequence is none any more.
  lemma RewrittenAgain(a: Line, b: Line, r: Line, node: Line, rest: seq<Line>, which: Which)
    requires a.kind.Terminator? && b.kind.PostEvent? && r.kind.Other? && node.kind.Node?
    requires Rewrite(rest, which) == Done(rest, [])
    ensures Rewrite([a, b, r, node] + rest, which) == Done([a, b, r, node] + rest, [])
  {
    hide Rewrite, Selected;
    var out, tail := [a, b, r, node] + rest, [node] + rest;
    assert tail[..1] + rest == tail && out[..3] + tail == out;
    KeptAgain(tail, rest, 1, which);
    KeptAgain(out, tail, 3, which);
  }

  lemma CutOffAgain(a: Line, b: Line, which: Which)
    requires a.kind.Terminator? && b.kind.PostEvent?
    ensures Rewrite([a, b, REWRITTEN], which) == Done([a, b, REWRITTEN], [])
  {
    var out := [a, b, REWRITTEN];
    assert Stretch(out, which) == 3 && out[3..] == [] && out[..3] + [] == out;
  }

  lemma KeptAgain(lines: seq<Line>, rest: seq<Line>, n: nat, which: Which)
    requires lines != [] && n == Stretch(lines, which) && |rest| == |lines| - n && !CutOff(lines, which)
    requires n == 4 ==> lines[3].kind.Node? && !Selected(lines[3].kind.id, which)
    requires Rewrite(rest, which) == Done(rest, [])
    ensures Rewrite(lines[..n] + rest, which) == Done(lines[..n] + rest, [])
  {
    hide Selected;
    SameStretch(lines, rest, n, which);
    var out := lines[..n] + rest;
    assert out[..n] == lines[..n] && out[n..] == rest;
  }

  // A second run with the same jobs changes nothing and returns nothing.
  lemma {:induction false} SecondRun(lines: seq<Line>, which: Which)
    requires Rewrite(lines, which).Done?
    ensures Rewrite(Rewrite(lines, which).lines, which) == Done(Rewrite(lines, which).lines, [])
    decreases |lines|
  {
    hide Selected, Eligible;
    if lines != [] {
      var n, rest := Stretch(lines, which), Rewrite(lines[Stretch(lines, which)..], which);
      SecondRun(lines[n..], which);
      OnlySelectedChange(lines[n..], which);
      if n == 4 && Selected(lines[3].kind.id, which) {
        RewrittenAgain(lines[0], lines[1], REWRITTEN, lines[3], rest.lines, which);
      } else if CutOff(lines, which) {
        CutOffAgain(lines[0], lines[1], which);
      } else {
        KeptAgain(lines, rest.lines, n, which);
      }
    }
  }

  // A stretch that is kept is the same stretch again.
  lemma SameStretch(lines: seq<Line>, rest: seq<Line>, n: nat, which: Which)
    requires lines != [] && n == Stretch(lines, which) && |rest| == |lines| - n && !CutOff(lines, which)
    requires n == 4 ==> lines[3].kind.Node?
    ensures Stretch(lines[..n] + rest, which) == n && !CutOff(lines[..n] + rest, which)
    ensures n == 4 ==> (lines[..n] + rest)[3] == lines[3]
  {
    var out := lines[..n] + rest;
    assert |out| == |lines|;
    assert forall i :: 0 <= i < n ==> out[i] == lines[i];
  }

  // After its first stretch a log is rewritten like a log of its own.
  lemma RewriteTail(lines: seq<Line>, which: Which)
    requires |lines| > 3 && Rewrite(lines, which).Done?
    ensures var n := Stretch(lines, which);
            var r, rest := Rewrite(lines, which), Rewrite(lines[n..], which);
            && rest.Done? && |r.lines| == n + |rest.lines| && r.lines[n..] == rest.lines
            && forall id <- rest.ids :: id in r.ids
  {
    hide Selected, Eligible;
  }

  lemma StretchStops(lines: seq<Line>, which: Which, i: nat)
    requires 0 < i < |lines| && (lines[i - 1].kind.Node? || lines[i - 1].kind.Other?) && lines[i].kind.Terminator?
    ensures Stretch(lines, which) <= i || (Stretch(lines, which) == 4 && !lines[3].kind.Node?)
  {
  }

  // Every sequence of a selected job is found, if the line before it is one of an event: no line of the
  // pattern but a node.
  lemma {:induction false} SelectedAreFound(lines: seq<Line>, which: Which, i: nat)
    requires Rewrite(lines, which).Done? && i + 3 < |lines|
    requires i > 0 ==> lines[i - 1].kind.Node? || lines[i - 1].kind.Other?
    requires lines[i].kind.Terminator? && lines[i + 1].kind.PostEvent? && Eligible(lines[i + 2], which)
    requires lines[i + 3].kind.Node? && Selected(lines[i + 3].kind.id, which)
    ensures i + 2 < |Rewrite(lines, which).lines| && Rewrite(lines, which).lines[i + 2] == REWRITTEN
    ensures lines[i + 3].kind.id in Rewrite(lines, which).ids
    decreases |lines|
  {
    hide Selected, Eligible;
    if i > 0 {
      var n := Stretch(lines, which);
      StretchStops(lines, which, i);
      RewriteTail(lines, which);
      assert n <= i;
      hide Rewrite, Stretch;
      SelectedAreFound(lines[n..], which, i - n);
      assert Rewrite(lines, which).lines[i + 2] == Rewrite(lines, which).lines[n..][i + 2 - n];
    }
  }

  // ---- logs that are cut off ----

  // The log ends between a return value and its node.
  predicate EndsCutOff(lines: seq<Line>, which: Which)
    decreases |lines|
  {
    lines != [] && (CutOff(lines, which) || EndsCutOff(lines[Stretch(lines, which)..], which))
  }

  // There, and only there, a return value is rewritten without its job being reported, if there are any jobs.
  lemma CutOffRewritten(lines: seq<Line>, which: Which)
    requires Adjusted(lines, which).Done?
    ensures |Adjusted(lines, which).lines| == |lines|
    ensures EndsCutOff(lines, which) && which != Jobs([]) <==>
              lines != [] && Adjusted(lines, which).lines[|lines| - 1] != lines[|lines| - 1]
  {
    hide Rewrite, EndsCutOff;
    if which != Jobs([]) {
      LastRewritten(lines, which);
    }
  }

  // The end of a log, after its first stretch.
  lemma LastStep(lines: seq<Line>, which: Which)
    requires lines != [] && Rewrite(lines, which).Done?
    ensures var n, r := Stretch(lines, which), Rewrite(lines, which).lines;
            if CutOff(lines, which) then n == |lines| == |r| == 3 && r[2] != lines[2]
            else
              && Rewrite(lines[n..], which).Done?
              && |r| == n + |Rewrite(lines[n..], which).lines| && r[n..] == Rewrite(lines[n..], which).lines
              && (n == |r| ==> r[n - 1] == lines[n - 1])
  {
    hide Selected;
  }

  lemma {:induction false} LastRewritten(lines: seq<Line>, which: Which)
    requires Rewrite(lines, which).Done?
    ensures |Rewrite(lines, which).lines| == |lines|
    ensures EndsCutOff(lines, which) <==> lines != [] && Rewrite(lines, which).lines[|lines| - 1] != lines[|lines| - 1]
    decreases |lines|
  {
    hide Stretch, CutOff;
    if lines != [] {
      LastStep(lines, which);
      hide Rewrite;
      var n := Stretch(lines, which);
      if CutOff(lines, which) {
        assert lines[n..] == [];
      } else {
        LastRewritten(lines[n..], which);
        var r := Rewrite(lines, which).lines;
        if n < |lines| {
          assert r[|lines| - 1] == r[n..][|lines| - 1 - n] && lines[|lines| - 1] == lines[n..][|lines| - 1 - n];
        } else {
          assert lines[n..] == [];
        }
      }
    }
  }

  // ---- complete logs ----

  // Every return value of the pattern that is not the last line is followed by a node.
  ghost predicate NodesFollow(lines: seq<Line>, which: Which) {
    forall i :: 0 <= i < |lines| - 3 ==> PatternAt(lines, which, i) ==> lines[i + 3].kind.Node?
  }

  predicate PatternAt(lines: seq<Line>, which: Which, i: nat)
    requires i + 2 < |lines|
  {
    lines[i].kind.Terminator? && lines[i + 1].kind.PostEvent? && Eligible(lines[i + 2], which)
  }

  // Nothing is missing at the end either.
  ghost predicate CompleteLog(lines: seq<Line>, which: Which) {
    NodesFollow(lines, which) && (lines != [] ==> !Eligible(lines[|lines| - 1], which))
  }

  // A stretch begins with line i.
  predicate Starts(lines: seq<Line>, which: Which, i: nat)
    decreases |lines|
  {
    i == 0 || (lines != [] && i >= Stretch(lines, which)
               && Starts(lines[Stretch(lines, which)..], which, i - Stretch(lines, which)))
  }

  // Some stretch has a return value and no node after it.
  ghost predicate NodeMissing(lines: seq<Line>, which: Which) {
    exists i :: MissingAt(lines, which, i)
  }

  ghost predicate MissingAt(lines: seq<Line>, which: Which, i: int) {
    0 <= i < |lines| - 3 && Starts(lines, which, i) && PatternAt(lines, which, i) && !lines[i + 3].kind.Node?
  }

  lemma MissingLater(lines: seq<Line>, which: Which, i: int)
    requires lines != [] && i != 0
    ensures MissingAt(lines, which, i) <==>
              MissingAt(lines[Stretch(lines, which)..], which, i - Stretch(lines, which))
  {
    hide Eligible, Stretch;
    var n := Stretch(lines, which);
    if n <= i < |lines| - 3 {
      assert forall k :: 0 <= k < |lines| - n ==> lines[n..][k] == lines[k + n];
    }
  }

  lemma MissingNow(lines: seq<Line>, which: Which)
    requires lines != []
    ensures MissingAt(lines, which, 0) <==> Stretch(lines, which) == 4 && !lines[3].kind.Node?
  {
    hide Eligible;
  }

  lemma FirstMissing(lines: seq<Line>, which: Which) returns (i: int)
    requires NodeMissing(lines, which)
    ensures MissingAt(lines, which, i) && i >= 0
  {
    i :| MissingAt(lines, which, i);
  }

  // Exactly then the program throws, if there are any jobs.
  lemma CrashExactly(lines: seq<Line>, which: Which)
    ensures Adjusted(lines, which).Crash? <==> which != Jobs([]) && NodeMissing(lines, which)
  {
    hide Rewrite, NodeMissing;
    RewriteCrashes(lines, which);
  }

  // A log that makes it throw: another line where the node should be.
  lemma NoNode() returns (lines: seq<Line>)
    ensures Adjusted(lines, AllFailed) == Crash
  {
    lines := [Line("...", Terminator), Line("016", PostEvent), Line("2", ReturnValue(true)), Line("", Other)];
    assert MissingAt(lines, AllFailed, 0);
    CrashExactly(lines, AllFailed);
  }

  lemma {:induction false} RewriteCrashes(lines: seq<Line>, which: Which)
    ensures Rewrite(lines, which).Crash? <==> NodeMissing(lines, which)
    decreases |lines|
  {
    hide Eligible, Selected, MissingAt, Stretch, CutOff;
    if lines == [] {
      assert forall i :: !MissingAt(lines, which, i) by {
        NothingMissing(which);
      }
    } else {
      var n := Stretch(lines, which);
      var rest := lines[n..];
      RewriteCrashes(rest, which);
      MissingNow(lines, which);
      if NodeMissing(lines, which) {
        var i := FirstMissing(lines, which);
        if i != 0 {
          MissingLater(lines, which, i);
        }
      }
      if NodeMissing(rest, which) {
        var i := FirstMissing(rest, which);
        MissingLater(lines, which, i + n);
        assert MissingAt(lines, which, i + n);
      }
    }
  }

  lemma NothingMissing(which: Which)
    ensures forall i :: !MissingAt([], which, i)
  {
  }

  // What is promised for every complete log: no exception; number and order of the lines are kept; every
  // changed line is the return value in a sequence of a selected job, and now says 1; the ids are those of
  // the changed sequences in their order; and a second run changes nothing and returns nothing.
  lemma CompleteLogs(lines: seq<Line>, which: Which)
    requires CompleteLog(lines, which)
    ensures Adjusted(lines, which).Done?
    ensures var out := Adjusted(lines, which).lines;
            && |out| == |lines|
            && (forall i :: 0 <= i < |lines| && out[i] != lines[i] ==>
                  out[i] == REWRITTEN && InSequence(lines, i, which))
            && Adjusted(lines, which).ids == ChangedIds(lines, out, 0)
            && Adjusted(out, which) == Done(out, [])
  {
    hide Eligible, Selected, Rewrite, Starts;
    if which == Jobs([]) {
      ChangedIdsSkip(lines, lines, |lines|, 0);
    } else {
      RewriteCrashes(lines, which);
      OnlySelectedChange(lines, which);
      IdsAreChanged(lines, which);
      SecondRun(lines, which);
    }
  }

  // Line i is the return value in a whole sequence of a selected job.
  ghost predicate InSequence(lines: seq<Line>, i: nat, which: Which) {
    && 2 <= i && i + 1 < |lines| && PatternAt(lines, which, i - 2)
    && lines[i + 1].kind.Node? && Selected(lines[i + 1].kind.id, which)
  }
}
