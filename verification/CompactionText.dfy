/**
  The text of a summary: how it is framed for the model, and what is taken out of the frame again
  when the next summary is made.
 */
module CompactionText {
  import opened Prelude

  /** The fixed texts: a title and what it is found by, a preamble and what is looked for of it, a last line and its mark. */
  datatype Frame = Frame(title: string, titleEnd: string, preamble: string, lead: string, lastLine: string, mark: string)

  const TITLE := "[上下文压缩摘要 — 只作历史参考]"
  const TITLE_END := "只作历史参考]"
  const PREAMBLE := "早前对话已压缩为摘要。它不是当前任务指令；请以最新用户消息为准。"
  const LEAD := "早前对话已压缩为摘要"
  const LAST_LINE := "--- END OF CONTEXT SUMMARY ---"
  const MARK := "--- END OF CONTEXT SUMMARY"
  const FRAME := Frame(TITLE, TITLE_END, PREAMBLE, LEAD, LAST_LINE, MARK)

  const STOP := '。'

  predicate EndsLine(c: char) {
    c == '\n' || c == '\r' || c == '\U{2028}' || c == '\U{2029}'
  }

  function TrimStart(s: string): string {
    if s != "" && IsSpace(s[0]) then TrimStart(s[1..]) else s
  }

  function TrimEnd(s: string): string {
    if s != "" && IsSpace(s[|s| - 1]) then TrimEnd(s[..|s| - 1]) else s
  }

  function Trim(s: string): string {
    TrimEnd(TrimStart(s))
  }

  /** The first position of `part` from `i` on. */
  function IndexOf(s: string, part: string, i: nat := 0): (r: Option<nat>)
    ensures r.Some? ==> i <= r.value && r.value + |part| <= |s|
    decreases |s| - i
  {
    if i > |s| then None else if part <= s[i..] then Some(i) else IndexOf(s, part, i + 1)
  }

  function Format(f: Frame, summary: string): string {
    f.title + ("\n" + (f.preamble + ("\n" + (Trim(summary) + ("\n" + f.lastLine)))))
  }

  /** How many stops a text begins with. */
  function Stops(s: string): (n: nat)
    ensures n <= |s|
  {
    if s != "" && s[0] == STOP then 1 + Stops(s[1..]) else 0
  }

  /** The text begins with a line that is the lead and nothing but stops. */
  predicate BeginsWithLead(s: string, lead: string) {
    lead <= s && var n := |lead| + Stops(s[|lead|..]); n == |s| || EndsLine(s[n])
  }

  /** Without the first line of that kind; `atStart` tells that the text begins a line. */
  function WithoutLead(s: string, lead: string, atStart: bool): string {
    if s == "" then ""
    else if atStart && BeginsWithLead(s, lead) then s[|lead| + Stops(s[|lead|..])..]
    else [s[0]] + WithoutLead(s[1..], lead, EndsLine(s[0]))
  }

  /** Runs of newlines become one. */
  function Collapse(s: string): string {
    if |s| < 2 then s
    else if s[0] == '\n' && s[1] == '\n' then Collapse(s[1..])
    else [s[0]] + Collapse(s[1..])
  }

  function Unwrapped(body: string, lead: string): string {
    Trim(Collapse(WithoutLead(body, lead, true)))
  }

  /** What stands between the line of the title and the mark; `start` and `end` are where they were found. */
  function Body(content: string, start: Option<nat>, end: Option<nat>): Option<string>
    requires end.Some? ==> end.value <= |content|
  {
    if start.None? then None
    else
      match IndexOf(content, "\n", start.value)
      case None => None
      case Some(lineEnd) =>
        Some(if end.Some? && end.value > lineEnd then content[lineEnd + 1..end.value] else content[lineEnd + 1..])
  }

  function Extract(f: Frame, content: string): string {
    match Body(content, IndexOf(content, f.titleEnd), IndexOf(content, f.mark))
    case None => Trim(content)
    case Some(body) => Unwrapped(body, f.lead)
  }

  // ---------------------------------------------------------------- what the results below need of the fixed texts

  ghost predicate OneLine(s: string) {
    s != "" && forall c :: c in s ==> !EndsLine(c)
  }

  ghost predicate Trimmed(s: string) {
    s != "" && !IsSpace(s[0]) && !IsSpace(s[|s| - 1])
  }

  /** The title ends where it is found by its end, and the mark begins with what is not in the lines before it. */
  ghost predicate Locatable(f: Frame) {
    && OneLine(f.title) && OneLine(f.titleEnd) && |f.titleEnd| <= |f.title| && f.title[|f.title| - |f.titleEnd|..] == f.titleEnd
    && f.titleEnd[0] !in f.title[..|f.title| - |f.titleEnd|]
    && OneLine(f.mark) && f.mark <= f.lastLine && f.mark[0] !in f.title && f.mark[0] !in f.preamble
  }

  /** The preamble is a line that goes on after the lead and its stop. */
  ghost predicate GoesOn(f: Frame) {
    && OneLine(f.preamble) && Trimmed(f.preamble) && OneLine(f.lead)
    && |f.lead| + 2 <= |f.preamble| && f.lead <= f.preamble
    && f.preamble[|f.lead|] == STOP && f.preamble[|f.lead| + 1] != STOP
  }

  lemma TitleIsFoundByItsEnd()
    ensures OneLine(TITLE) && OneLine(TITLE_END) && |TITLE_END| <= |TITLE| && TITLE[|TITLE| - |TITLE_END|..] == TITLE_END
    ensures TITLE_END[0] !in TITLE[..|TITLE| - |TITLE_END|]
  {
    var at := |TITLE| - |TITLE_END|;
    forall k: nat | k < at ensures TITLE[..at][k] != TITLE_END[0] {
      assert TITLE[..at][k] == TITLE[k];
    }
  }

  lemma MarkIsNotInTitle()
    ensures OneLine(MARK) && MARK <= LAST_LINE && MARK[0] !in TITLE
  {
    assert '-' !in TITLE;
  }

  lemma MarkIsNotInPreamble()
    ensures MARK[0] !in PREAMBLE
  {
    assert '-' !in PREAMBLE;
  }

  lemma PreambleIsOneLine()
    ensures OneLine(PREAMBLE)
  {
    forall c | c in PREAMBLE ensures !EndsLine(c) {
    }
  }

  lemma PreambleGoesOn()
    ensures Trimmed(PREAMBLE) && OneLine(LEAD) && |LEAD| + 2 <= |PREAMBLE| && LEAD <= PREAMBLE
    ensures PREAMBLE[|LEAD|] == STOP && PREAMBLE[|LEAD| + 1] != STOP
  {
  }

  /** The texts the program uses are such a frame. */
  lemma FrameFits()
    ensures Locatable(FRAME) && GoesOn(FRAME)
  {
    TitleIsFoundByItsEnd();
    MarkIsNotInTitle();
    MarkIsNotInPreamble();
    PreambleIsOneLine();
    PreambleGoesOn();
  }

  // ---------------------------------------------------------------- finding the frame

  /** The position found is the first from `i` on; there is none only if the part does not occur. */
  lemma {:induction false} FindsFirst(s: string, part: string, i: nat)
    ensures var r := IndexOf(s, part, i);
            && (r.Some? ==> part <= s[r.value..])
            && (forall k: nat :: i <= k <= |s| && (r.Some? ==> k < r.value) ==> !(part <= s[k..]))
    decreases |s| - i
  {
    if i <= |s| && !(part <= s[i..]) {
      FindsFirst(s, part, i + 1);
    }
  }

  lemma FoundAt(s: string, part: string, i: nat, at: nat)
    requires i <= at && at + |part| <= |s| && part <= s[at..]
    requires forall k: nat :: i <= k < at ==> !(part <= s[k..])
    ensures IndexOf(s, part, i) == Some(at)
  {
    FindsFirst(s, part, i);
  }

  lemma TitleEndIsFound(f: Frame, rest: string)
    requires Locatable(f)
    ensures IndexOf(f.title + rest, f.titleEnd) == Some(|f.title| - |f.titleEnd|)
  {
    var s, at := f.title + rest, |f.title| - |f.titleEnd|;
    assert s[at..] == f.titleEnd + rest;
    forall k: nat | k < at ensures !(f.titleEnd <= s[k..]) {
      assert s[k] == f.title[..at][k];
    }
    FoundAt(s, f.titleEnd, 0, at);
  }

  lemma TitleLineEnds(f: Frame, rest: string)
    requires Locatable(f)
    ensures IndexOf(f.title + ("\n" + rest), "\n", |f.title| - |f.titleEnd|) == Some(|f.title|)
  {
    var s := f.title + ("\n" + rest);
    assert s[|f.title|..] == "\n" + rest;
    forall k: nat | k < |f.title| ensures !("\n" <= s[k..]) {
      assert s[k] == f.title[k] && f.title[k] in f.title;
    }
    FoundAt(s, "\n", |f.title| - |f.titleEnd|, |f.title|);
  }

  /** Where the text that is taken out ends. */
  function UpToMark(t: string, mark: string): string {
    match IndexOf(t, mark)
    case Some(i) => t[..i]
    case None => t + "\n"
  }

  /** No mark reaches over the end of a line. */
  lemma MarkInside(t: string, tail: string, mark: string, k: nat)
    requires k <= |t| && OneLine(mark) && mark <= (t + ("\n" + tail))[k..]
    ensures mark <= t[k..]
  {
    var s := t + ("\n" + tail);
    assert s[|t|] == '\n';
    assert forall i :: 0 <= i < |mark| ==> s[k + i] == mark[i] && mark[i] in mark;
    assert t[k..] == s[k..|t|];
  }

  lemma MarkInText(t: string, lastLine: string, mark: string)
    requires OneLine(mark) && mark <= lastLine
    ensures IndexOf(t + ("\n" + lastLine), mark) == Some(|UpToMark(t, mark)|)
  {
    var s, at := t + ("\n" + lastLine), |UpToMark(t, mark)|;
    FindsFirst(t, mark, 0);
    forall k: nat | k < at ensures !(mark <= s[k..]) {
      if mark <= s[k..] {
        MarkInside(t, lastLine, mark, k);
      }
    }
    if IndexOf(t, mark).Some? {
      assert s[at..] == t[at..] + ("\n" + lastLine);
    } else {
      assert s[at..] == lastLine;
    }
    FoundAt(s, mark, 0, at);
  }

  lemma FoundBehind(head: string, s: string, part: string, at: nat)
    requires part != "" && part[0] !in head && IndexOf(s, part) == Some(at)
    ensures IndexOf(head + s, part) == Some(|head| + at)
  {
    var all := head + s;
    FindsFirst(s, part, 0);
    forall k: nat | k < |head| + at ensures !(part <= all[k..]) {
      if k < |head| {
        assert all[k] == head[k];
      } else {
        assert all[k..] == s[k - |head|..];
      }
    }
    assert all[|head| + at..] == s[at..];
    FoundAt(all, part, 0, |head| + at);
  }

  lemma MarkIsNotBefore(f: Frame, head: string)
    requires Locatable(f) && head == f.title + ("\n" + (f.preamble + "\n"))
    ensures f.mark[0] !in head
  {
    assert f.mark[0] in f.mark && EndsLine('\n');
    forall c | c in head ensures c in f.title || c in f.preamble || c == '\n' {
    }
  }

  lemma Regroup(a: string, n: string, b: string, c: string)
    ensures a + (n + (b + (n + c))) == (a + (n + (b + n))) + c
  {
  }

  lemma MarkOfFrame(f: Frame, t: string, v: string, head: string)
    requires Locatable(f) && v == t + ("\n" + f.lastLine) && head == f.title + ("\n" + (f.preamble + "\n"))
    ensures IndexOf(head + v, f.mark) == Some(|f.title| + |f.preamble| + 2 + |UpToMark(t, f.mark)|)
  {
    MarkInText(t, f.lastLine, f.mark);
    MarkIsNotBefore(f, head);
    FoundBehind(head, v, f.mark, |UpToMark(t, f.mark)|);
  }

  lemma MiddleIs(a: string, n: string, b: string, v: string, u: string)
    requires |n| == 1 && u <= v
    ensures var content := a + (n + (b + (n + v)));
            |a| + |b| + 2 + |u| <= |content| && content[|a| + 1..|a| + |b| + 2 + |u|] == b + (n + u)
  {
    var content, rest := a + (n + (b + (n + v))), b + (n + v);
    assert content[|a| + 1..] == rest;
    assert rest[..|b| + 1 + |u|] == b + (n + u);
  }

  lemma BodyAt(content: string, start: nat, lineEnd: nat, end: nat)
    requires IndexOf(content, "\n", start) == Some(lineEnd) && lineEnd < end <= |content|
    ensures Body(content, Some(start), Some(end)) == Some(content[lineEnd + 1..end])
  {
  }

  lemma ExtractBody(f: Frame, content: string, body: string)
    requires Body(content, IndexOf(content, f.titleEnd), IndexOf(content, f.mark)) == Some(body)
    ensures Extract(f, content) == Unwrapped(body, f.lead)
  {
  }

  lemma UpToMarkIsPrefix(t: string, mark: string, tail: string)
    ensures UpToMark(t, mark) <= t + ("\n" + tail)
  {
  }

  lemma TitleLineIsFound(f: Frame, content: string, rest: string)
    requires Locatable(f) && content == f.title + ("\n" + rest)
    ensures IndexOf(content, f.titleEnd) == Some(|f.title| - |f.titleEnd|)
    ensures IndexOf(content, "\n", |f.title| - |f.titleEnd|) == Some(|f.title|)
  {
    TitleEndIsFound(f, "\n" + rest);
    TitleLineEnds(f, rest);
  }

  lemma BodyBetween(content: string, title: string, preamble: string, v: string, u: string, start: nat)
    requires content == title + ("\n" + (preamble + ("\n" + v))) && u <= v
    requires IndexOf(content, "\n", start) == Some(|title|)
    ensures |title| + |preamble| + 2 + |u| <= |content|
    ensures Body(content, Some(start), Some(|title| + |preamble| + 2 + |u|)) == Some(preamble + ("\n" + u))
  {
    MiddleIs(title, "\n", preamble, v, u);
    BodyAt(content, start, |title|, |title| + |preamble| + 2 + |u|);
  }

  /** What the frame is taken off: the preamble, and the text up to the first mark in it. */
  lemma BodyIsFound(f: Frame, t: string, v: string)
    requires Locatable(f) && v == t + ("\n" + f.lastLine)
    ensures Extract(f, f.title + ("\n" + (f.preamble + ("\n" + v)))) == Unwrapped(f.preamble + ("\n" + UpToMark(t, f.mark)), f.lead)
  {
    var content := f.title + ("\n" + (f.preamble + ("\n" + v)));
    MarkOfFrame(f, t, v, f.title + ("\n" + (f.preamble + "\n")));
    Regroup(f.title, "\n", f.preamble, v);
    UpToMarkIsPrefix(t, f.mark, f.lastLine);
    TitleLineIsFound(f, content, f.preamble + ("\n" + v));
    BodyBetween(content, f.title, f.preamble, v, UpToMark(t, f.mark), |f.title| - |f.titleEnd|);
    ExtractBody(f, content, f.preamble + ("\n" + UpToMark(t, f.mark)));
  }

  // ---------------------------------------------------------------- what is taken out

  lemma {:induction false} LineIsKept(line: string, rest: string, lead: string)
    requires forall c :: c in line ==> !EndsLine(c)
    ensures WithoutLead(line + rest, lead, false) == line + WithoutLead(rest, lead, false)
  {
    if line == "" {
      assert line + rest == rest;
    } else {
      LineIsKept(line[1..], rest, lead);
      assert (line + rest)[1..] == line[1..] + rest;
    }
  }

  lemma NoLeadNoDifference(s: string, lead: string)
    requires !BeginsWithLead(s, lead)
    ensures WithoutLead(s, lead, true) == WithoutLead(s, lead, false)
  {
  }

  lemma NewlineStartsLine(text: string, lead: string)
    ensures WithoutLead("\n" + text, lead, false) == "\n" + WithoutLead(text, lead, true)
  {
    assert ("\n" + text)[1..] == text;
  }

  lemma OtherLineIsKept(line: string, text: string, lead: string)
    requires OneLine(line) && !BeginsWithLead(line + ("\n" + text), lead)
    ensures WithoutLead(line + ("\n" + text), lead, true) == line + ("\n" + WithoutLead(text, lead, true))
  {
    NoLeadNoDifference(line + ("\n" + text), lead);
    LineIsKept(line, "\n" + text, lead);
    NewlineStartsLine(text, lead);
  }

  lemma PreambleIsNoLead(f: Frame, rest: string)
    requires GoesOn(f)
    ensures !BeginsWithLead(f.preamble + rest, f.lead)
  {
    var s, n := f.preamble + rest, |f.lead|;
    assert s[n] == f.preamble[n] && s[n + 1] == f.preamble[n + 1] && f.preamble[n + 1] in f.preamble;
    assert Stops(s[n..][1..]) == 0;
    assert Stops(s[n..]) == 1;
  }

  lemma {:induction false} CollapseBehind(line: string, rest: string)
    requires '\n' !in line
    ensures Collapse(line + rest) == line + Collapse(rest)
  {
    if line == "" {
      assert line + rest == rest;
    } else {
      CollapseBehind(line[1..], rest);
      assert (line + rest)[1..] == line[1..] + rest;
    }
  }

  lemma {:induction false} TrimBehind(head: string, rest: string)
    requires Trimmed(head)
    ensures Trim(head + rest) == head + TrimEnd(rest) && TrimEnd(head + rest) == head + TrimEnd(rest)
  {
    if rest == "" {
      assert head + rest == head;
    } else if IsSpace(rest[|rest| - 1]) {
      TrimBehind(head, rest[..|rest| - 1]);
      assert (head + rest)[..|head + rest| - 1] == head + rest[..|rest| - 1];
    }
  }

  lemma {:induction false} StopsBeforeNewline(s: string)
    ensures Stops(s + "\n") == Stops(s)
  {
    if s != "" {
      StopsBeforeNewline(s[1..]);
      assert (s + "\n")[1..] == s[1..] + "\n";
    }
  }

  lemma LeadBeforeNewline(s: string, lead: string)
    requires OneLine(lead)
    ensures BeginsWithLead(s + "\n", lead) <==> BeginsWithLead(s, lead)
  {
    assert lead[|lead| - 1] in lead;
    if lead <= s {
      assert (s + "\n")[|lead|..] == s[|lead|..] + "\n";
      StopsBeforeNewline(s[|lead|..]);
    }
  }

  lemma DropBeforeNewline(s: string, n: nat)
    requires n <= |s|
    ensures (s + "\n")[n..] == s[n..] + "\n"
  {
  }

  lemma LeadLineBeforeNewline(s: string, lead: string)
    requires OneLine(lead) && s != "" && BeginsWithLead(s, lead)
    ensures WithoutLead(s + "\n", lead, true) == WithoutLead(s, lead, true) + "\n"
  {
    LeadBeforeNewline(s, lead);
    DropBeforeNewline(s, |lead|);
    StopsBeforeNewline(s[|lead|..]);
    DropBeforeNewline(s, |lead| + Stops(s[|lead|..]));
  }

  lemma {:induction false} WithoutLeadBeforeNewline(s: string, lead: string, atStart: bool)
    requires OneLine(lead)
    ensures WithoutLead(s + "\n", lead, atStart) == WithoutLead(s, lead, atStart) + "\n"
  {
    if s == "" {
      assert "\n"[1..] == "";
    } else if atStart && BeginsWithLead(s, lead) {
      LeadLineBeforeNewline(s, lead);
    } else {
      LeadBeforeNewline(s, lead);
      WithoutLeadBeforeNewline(s[1..], lead, EndsLine(s[0]));
      assert (s + "\n")[1..] == s[1..] + "\n";
    }
  }

  lemma {:induction false} CollapseBeforeNewline(s: string)
    ensures Collapse(s + "\n") == Collapse(s) + if s != "" && s[|s| - 1] == '\n' then "" else "\n"
  {
    if |s| > 1 {
      CollapseBeforeNewline(s[1..]);
      assert (s + "\n")[1..] == s[1..] + "\n";
    }
  }

  lemma TrimsNewline(s: string)
    ensures TrimEnd(s + "\n") == TrimEnd(s)
  {
    assert (s + "\n")[..|s|] == s;
  }

  lemma NewlineGoes(s: string)
    ensures TrimEnd(Collapse(s + "\n")) == TrimEnd(Collapse(s))
  {
    var c := Collapse(s);
    CollapseBeforeNewline(s);
    TrimsNewline(c);
    assert Collapse(s + "\n") == c + "\n" || Collapse(s + "\n") == c + "" == c;
  }

  lemma Unframed(f: Frame, u: string)
    requires GoesOn(f)
    ensures Unwrapped(f.preamble + ("\n" + u), f.lead) == f.preamble + TrimEnd(Collapse("\n" + WithoutLead(u, f.lead, true)))
  {
    var line, w := f.preamble, "\n" + WithoutLead(u, f.lead, true);
    PreambleIsNoLead(f, "\n" + u);
    OtherLineIsKept(line, u, f.lead);
    CollapseBehind(line, w);
    TrimBehind(line, Collapse(w));
  }

  function BeforeMark(t: string, mark: string): string {
    match IndexOf(t, mark)
    case Some(i) => t[..i]
    case None => t
  }

  lemma LastNewlineGoes(t: string, mark: string, lead: string)
    requires OneLine(lead)
    ensures TrimEnd(Collapse("\n" + WithoutLead(UpToMark(t, mark), lead, true)))
            == TrimEnd(Collapse("\n" + WithoutLead(BeforeMark(t, mark), lead, true)))
  {
    if IndexOf(t, mark).None? {
      WithoutLeadBeforeNewline(t, lead, true);
      Associative("\n", WithoutLead(t, lead, true), "\n");
      NewlineGoes("\n" + WithoutLead(t, lead, true));
    }
  }

  /**
    What the next summary is made from, for every summary: the preamble, which is never taken off,
    and of the summary the part before the first mark in it, with empty lines closed up and without
    the first line that says no more than the lead.
   */
  lemma ExtractedText(f: Frame, summary: string)
    requires Locatable(f) && GoesOn(f)
    ensures Extract(f, Format(f, summary))
            == f.preamble + TrimEnd(Collapse("\n" + WithoutLead(BeforeMark(Trim(summary), f.mark), f.lead, true)))
  {
    var t := Trim(summary);
    BodyIsFound(f, t, t + ("\n" + f.lastLine));
    Unframed(f, UpToMark(t, f.mark));
    LastNewlineGoes(t, f.mark, f.lead);
  }

  // ---------------------------------------------------------------- what is removed on the way

  lemma {:induction false} TrimStartTakesSpace(s: string) returns (space: string)
    ensures s == space + TrimStart(s) && (forall c :: c in space ==> IsSpace(c))
    ensures TrimStart(s) == "" || !IsSpace(TrimStart(s)[0])
  {
    space := "";
    if s != "" && IsSpace(s[0]) {
      var rest := TrimStartTakesSpace(s[1..]);
      space := [s[0]] + rest;
    }
  }

  lemma {:induction false} TrimEndTakesSpace(s: string) returns (space: string)
    ensures s == TrimEnd(s) + space && (forall c :: c in space ==> IsSpace(c))
    ensures TrimEnd(s) == "" || !IsSpace(TrimEnd(s)[|TrimEnd(s)| - 1])
  {
    space := "";
    if s != "" && IsSpace(s[|s| - 1]) {
      var rest := TrimEndTakesSpace(s[..|s| - 1]);
      space := rest + [s[|s| - 1]];
      Snoc(s);
    }
  }

  /** Trimming takes the white space off both ends, and nothing else. */
  lemma TrimTakesSpace(s: string) returns (before: string, behind: string)
    ensures s == before + Trim(s) + behind && (forall c :: c in before + behind ==> IsSpace(c))
    ensures Trim(s) == "" || Trimmed(Trim(s))
  {
    before := TrimStartTakesSpace(s);
    behind := TrimEndTakesSpace(TrimStart(s));
    Associative(before, Trim(s), behind);
    if Trim(s) != "" {
      assert TrimStart(s)[0] == Trim(s)[0];
    }
  }

  /** No empty line is left; where there was none nothing changes; and one newline more or less in a run makes no difference. */
  lemma {:induction false} CollapseClosesUp(s: string)
    ensures forall i :: 0 <= i < |Collapse(s)| - 1 ==> !(Collapse(s)[i] == '\n' && Collapse(s)[i + 1] == '\n')
    ensures (forall i :: 0 <= i < |s| - 1 ==> !(s[i] == '\n' && s[i + 1] == '\n')) ==> Collapse(s) == s
    ensures s != "" ==> Collapse(s) != "" && Collapse(s)[0] == s[0]
  {
    if |s| >= 2 {
      CollapseClosesUp(s[1..]);
    }
  }

  lemma {:induction false} RunsAreOne(a: string, b: string)
    ensures Collapse(a + ("\n\n" + b)) == Collapse(a + ("\n" + b))
  {
    if a == "" {
      assert ("\n\n" + b)[1..] == "\n" + b;
      assert a + ("\n\n" + b) == "\n\n" + b && a + ("\n" + b) == "\n" + b;
    } else {
      RunsAreOne(a[1..], b);
      assert (a + ("\n\n" + b))[1..] == a[1..] + ("\n\n" + b);
      assert (a + ("\n" + b))[1..] == a[1..] + ("\n" + b);
      assert |a| == 1 ==> a[1..] + ("\n\n" + b) == "\n\n" + b && a[1..] + ("\n" + b) == "\n" + b;
    }
  }

  lemma LeadIsTaken(text: string, lead: string, tail: string, stops: nat)
    requires OneLine(lead) && text == lead + tail && stops == Stops(tail) && (stops < |tail| ==> EndsLine(tail[stops]))
    ensures WithoutLead(text, lead, true) == tail[stops..]
  {
    assert text[|lead|..] == tail;
    assert text[|lead| + stops..] == tail[stops..];
  }

  /** A line that says no more than the lead goes, the first of them only. */
  lemma LeadLineGoes(line: string, lead: string, stops: string, rest: string)
    requires OneLine(line) && OneLine(lead) && (forall i :: 0 <= i < |stops| ==> stops[i] == STOP)
    requires !BeginsWithLead(line + ("\n" + (lead + (stops + ("\n" + rest)))), lead)
    ensures WithoutLead(line + ("\n" + (lead + (stops + ("\n" + rest)))), lead, true) == line + ("\n" + ("\n" + rest))
  {
    var tail := stops + ("\n" + rest);
    OtherLineIsKept(line, lead + tail, lead);
    StopsCount(stops, "\n" + rest);
    LeadIsTaken(lead + tail, lead, tail, |stops|);
    assert tail[|stops|..] == "\n" + rest;
  }

  lemma {:induction false} StopsCount(stops: string, rest: string)
    requires (forall i :: 0 <= i < |stops| ==> stops[i] == STOP) && (rest == "" || rest[0] != STOP)
    ensures Stops(stops + rest) == |stops|
  {
    if stops == "" {
      assert stops + rest == rest;
    } else {
      StopsCount(stops[1..], rest);
      assert (stops + rest)[1..] == stops[1..] + rest;
    }
  }

  // ---------------------------------------------------------------- what comes of that

  /** A summary that loses nothing: trimmed, without mark, empty lines, or a line that says no more than the lead. */
  ghost predicate Plain(f: Frame, t: string) {
    && Trimmed(t) && IndexOf(t, f.mark).None? && Collapse(t) == t && WithoutLead(t, f.lead, true) == t
  }

  lemma CollapseLine(t: string)
    requires Trimmed(t)
    ensures Collapse("\n" + t) == "\n" + Collapse(t)
  {
    assert ("\n" + t)[1..] == t;
  }

  /** Even such a summary does not come back: the preamble has become its first line. */
  lemma PreambleComesBack(f: Frame, t: string)
    requires Locatable(f) && GoesOn(f) && Plain(f, t)
    ensures Extract(f, Format(f, t)) == f.preamble + ("\n" + t)
  {
    ExtractedText(f, t);
    assert Trim(t) == t && TrimEnd("\n" + t) == "\n" + t;
    CollapseLine(t);
  }

  lemma NoMarkAcross(head: string, t: string, mark: string)
    requires OneLine(mark) && mark[0] !in head && IndexOf(t, mark).None?
    ensures IndexOf(head + t, mark).None?
  {
    var s := head + t;
    FindsFirst(t, mark, 0);
    FindsFirst(s, mark, 0);
    forall k: nat | k <= |s| ensures !(mark <= s[k..]) {
      if k < |head| {
        assert s[k] == head[k];
      } else {
        assert s[k..] == t[k - |head|..];
      }
    }
  }

  lemma PlainBehind(f: Frame, line: string, t: string)
    requires Plain(f, t) && OneLine(line) && !IsSpace(line[0]) && OneLine(f.mark) && f.mark[0] !in line
    requires !BeginsWithLead(line + ("\n" + t), f.lead)
    ensures Plain(f, line + ("\n" + t))
  {
    OtherLineIsKept(line, t, f.lead);
    assert EndsLine('\n');
    CollapseBehind(line, "\n" + t);
    CollapseLine(t);
    Associative(line, "\n", t);
    NoMarkAcross(line + "\n", t, f.mark);
  }

  lemma OneMorePreamble(f: Frame, t: string)
    requires Locatable(f) && GoesOn(f) && Plain(f, t)
    ensures Extract(f, Format(f, t)) == f.preamble + "\n" + t && Plain(f, Extract(f, Format(f, t)))
  {
    PreambleComesBack(f, t);
    PreambleIsNoLead(f, "\n" + t);
    PlainBehind(f, f.preamble, t);
    Associative(f.preamble, "\n", t);
  }

  function Repeated(step: string -> string, t: string, n: nat): string {
    if n == 0 then t else step(Repeated(step, t, n - 1))
  }

  function Lines(line: string, n: nat): string {
    if n == 0 then "" else line + Lines(line, n - 1)
  }

  lemma {:induction false} LinesPileUp(step: string -> string, plain: string -> bool, line: string, t: string, n: nat)
    requires plain(t) && forall x :: plain(x) ==> step(x) == line + x && plain(step(x))
    ensures Repeated(step, t, n) == Lines(line, n) + t && plain(Repeated(step, t, n))
  {
    if n == 0 {
      assert "" + t == t;
    } else {
      LinesPileUp(step, plain, line, t, n - 1);
      Associative(line, Lines(line, n - 1), t);
    }
  }

  lemma EachAddsPreamble(f: Frame, step: string -> string, line: string)
    requires Locatable(f) && GoesOn(f) && line == f.preamble + "\n" && forall x :: step(x) == Extract(f, Format(f, x))
    ensures forall x :: Plain(f, x) ==> step(x) == line + x && Plain(f, step(x))
  {
    forall x | Plain(f, x) ensures step(x) == line + x && Plain(f, step(x)) {
      OneMorePreamble(f, x);
    }
  }

  /**
    So the preambles pile up: a text that the summarizer passes on as it is given is one line longer
    after every compaction.
   */
  lemma PreamblesPileUp(f: Frame, step: string -> string, t: string, n: nat)
    requires Locatable(f) && GoesOn(f) && Plain(f, t) && forall x :: step(x) == Extract(f, Format(f, x))
    ensures Repeated(step, t, n) == Lines(f.preamble + "\n", n) + t
  {
    EachAddsPreamble(f, step, f.preamble + "\n");
    LinesPileUp(step, x => Plain(f, x), f.preamble + "\n", t, n);
  }

  /** A text without the title, such as one from before there was a frame, is only trimmed. */
  lemma NoTitleNoFrame(f: Frame, content: string)
    requires forall k: nat :: k <= |content| ==> !(f.titleEnd <= content[k..])
    ensures Extract(f, content) == Trim(content)
  {
    FindsFirst(content, f.titleEnd, 0);
  }

  /** Behind a title without an end mark, all is taken but empty lines and the first line that is no more than the lead. */
  lemma TitledText(f: Frame, body: string)
    requires Locatable(f) && IndexOf(f.title + ("\n" + body), f.mark).None?
    ensures Extract(f, f.title + ("\n" + body)) == Trim(Collapse(WithoutLead(body, f.lead, true)))
  {
    var content := f.title + ("\n" + body);
    TitleLineIsFound(f, content, body);
    assert content[|f.title| + 1..] == body;
    ExtractBody(f, content, body);
  }

  lemma MarkStaysFirst(t: string, behind: string, mark: string)
    requires IndexOf(t, mark).Some?
    ensures IndexOf(t + behind, mark) == IndexOf(t, mark)
  {
    var i := IndexOf(t, mark).value;
    FindsFirst(t, mark, 0);
    forall k: nat | k < i ensures !(mark <= (t + behind)[k..]) {
      assert t[k..][..|mark|] == (t + behind)[k..][..|mark|];
      assert !(mark <= t[k..]);
    }
    assert (t + behind)[i..] == t[i..] + behind;
    FoundAt(t + behind, mark, 0, i);
  }

  /** What stands behind a mark in a summary is lost. */
  lemma MarkCutsOff(f: Frame, t: string, behind: string)
    requires Locatable(f) && GoesOn(f) && IndexOf(t, f.mark).Some? && Trim(t) == t && Trim(t + behind) == t + behind
    ensures Extract(f, Format(f, t + behind)) == Extract(f, Format(f, t))
  {
    MarkStaysFirst(t, behind, f.mark);
    assert BeforeMark(t + behind, f.mark) == BeforeMark(t, f.mark);
    ExtractedText(f, t);
    ExtractedText(f, t + behind);
  }
}
