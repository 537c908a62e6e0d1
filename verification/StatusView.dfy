/** The live build-status dashboard: one frame per call, painted over the previous one. */
module StatusView {
  import opened Numerals
  import opened StripAnsi
  import opened Terminal
  import opened Text

  const MAX_LOG_LINE: nat := 100

  /** A box-drawing dash in UTF-8. */
  const DASH: string := [0xE2 as char, 0x94 as char, 0x80 as char]

  const LOG_TITLE: string := DASH + " Build Log " + DASH

  /** The numbers that the program formats from floating point are given as their text. */
  datatype Status = Status(
    phaseId: string, phaseLabel: string, percent: int, elapsed: nat, cpu: string, memory: string,
    recent: seq<string>)

  function TwoDigits(n: nat): string { if n < 10 then "0" + NumText(n, 10) else NumText(n, 10) }

  function FormatElapsed(seconds: nat): string { TwoDigits(seconds / 60) + ":" + TwoDigits(seconds % 60) }

  function Clamped(percent: int): nat { if percent < 0 then 0 else if percent > 100 then 100 else percent }

  function RenderProgressBar(percent: int, width: nat): string {
    var p := Clamped(percent);
    var filled := p * width / 100;
    FilledBound(p, width);
    "[" + Repeat('=', filled) + Repeat('-', width - filled) + "] " + NumText(p, 10) + "%"
  }

  lemma FilledBound(p: nat, width: nat)
    requires p <= 100
    ensures 0 <= p * width / 100 <= width
  {
    assert p * width <= 100 * width;
  }

  function Truncate(s: string, maxLen: nat): (r: string)
    ensures |s| <= maxLen ==> r == s
    ensures |s| > maxLen ==> |r| == maxLen + 3 && r[..maxLen] == s[..maxLen] && r[maxLen..] == "..."
  {
    if |s| > maxLen then s[..maxLen] + "..." else s
  }

  // ----- One frame -----

  function Label(color: bool, name: string): string { "  " + Styled(color, "2", name) + "  " }

  function Head(color: bool, app: string, s: Status): seq<string> {
    ["",
     Styled(color, "1", "Building " + Styled(color, "36", app)),
     "",
     Label(color, "Phase   ") + (s.phaseId + " - " + s.phaseLabel),
     Label(color, "Progress") + RenderProgressBar(s.percent, 30),
     Label(color, "Elapsed ") + FormatElapsed(s.elapsed),
     "",
     Label(color, "CPU     ") + s.cpu,
     Label(color, "Memory  ") + s.memory]
  }

  function LogLine(color: bool, line: string): string { "  " + Styled(color, "2", Truncate(line, MAX_LOG_LINE)) }

  function LogLines(color: bool, recent: seq<string>): seq<string> {
    if recent == [] then []
    else LogLines(color, recent[..|recent| - 1]) + [LogLine(color, recent[|recent| - 1])]
  }

  function Frame(color: bool, app: string, s: Status): seq<string> {
    Head(color, app, s)
    + if s.recent == [] then [] else ["", "  " + Styled(color, "2", LOG_TITLE)] + LogLines(color, s.recent)
  }

  /** What a reader of the screen sees: the frame with colours off. */
  function Visible(app: string, s: Status): seq<string> { Frame(false, app, s) }

  // ----- The view -----

  /** `sent` is everything written to standard output; `frames` the frames asked for so far. */
  class View {
    const color: bool
    const appLabel: string
    var linesRendered: nat
    var sent: string
    ghost var frames: seq<seq<string>>

    ghost predicate Valid()
      reads this
    {
      sent == Painted(frames) && linesRendered == Height(frames)
    }

    constructor (color: bool, appLabel: string)
      ensures Valid() && frames == [] && this.color == color && this.appLabel == appLabel
    {
      this.color, this.appLabel, linesRendered, sent, frames := color, appLabel, 0, "", [];
    }

    method Render(s: Status)
      requires Valid()
      modifies this
      ensures Valid() && frames == old(frames) + [Frame(color, appLabel, s)]
      ensures sent == old(sent) + Paint(old(linesRendered), Frame(color, appLabel, s))
      ensures linesRendered == Newlines(Ended(Frame(color, appLabel, s)))
    {
      hide Frame, Painted, Height, Ended, Newlines, ControlSeq;
      var out := BuildFrame(s);
      ghost var lines := Frame(color, appLabel, s);
      var newLineCount := Newlines(out);
      var before := sent;
      if linesRendered > 0 {
        sent := sent + (ControlSeq(NumText(linesRendered, 10), 'A') + ControlSeq("0", 'J'));
      }
      sent := sent + out;
      PaintText(linesRendered, lines, before);
      PaintedSnoc(frames, lines);
      linesRendered := newLineCount;
      frames := frames + [lines];
    }

    method BuildFrame(s: Status) returns (out: string)
      ensures out == Ended(Frame(color, appLabel, s))
    {
      hide RenderProgressBar, FormatElapsed, LogLine, Label, Styled, Ended;
      ghost var head := Head(color, appLabel, s);
      out := BuildHead(s);
      assert head + [] == head;
      if |s.recent| > 0 {
        var title := "  " + Styled(color, "2", LOG_TITLE);
        out := AppendLine(out, "", head);
        out := AppendLine(out, title, head + [""]);
        ghost var lines := head + ["", title];
        assert head + [""] + [title] == lines;
        assert s.recent[..0] == [] && lines + [] == lines;
        for i := 0 to |s.recent|
          invariant out == Ended(lines + LogLines(color, s.recent[..i]))
        {
          out := AppendLine(out, LogLine(color, s.recent[i]), lines + LogLines(color, s.recent[..i]));
          assert s.recent[..i + 1][..i] == s.recent[..i];
          Assoc(lines, LogLines(color, s.recent[..i]), [LogLine(color, s.recent[i])]);
        }
        assert s.recent[..|s.recent|] == s.recent;
        Assoc(head, ["", title], LogLines(color, s.recent));
      }
    }

    method BuildHead(s: Status) returns (out: string)
      ensures out == Ended(Head(color, appLabel, s))
    {
      hide RenderProgressBar, FormatElapsed, Label, Styled, Ended;
      NoLines();
      var h := Head(color, appLabel, s);
      out := "";
      assert h[..0] == [];
      for i := 0 to |h|
        invariant out == Ended(h[..i])
      {
        out := AppendLine(out, h[i], h[..i]);
        assert h[..i + 1] == h[..i] + [h[i]];
      }
      assert h[..|h|] == h;
    }
  }

  // ----- What is on the screen -----

  /**
   The label and the phase arrive as they are and may hold codes that only style; `app2` and `t` are
   what they show. The figures are formatted numbers, the recent lines have been stripped.
   */
  ghost predicate ShowsAs(app: string, s: Status, app2: string, t: Status) {
    && Shows(app, app2) && Shows(s.phaseId, t.phaseId) && Shows(s.phaseLabel, t.phaseLabel)
    && '\n' !in app && '\n' !in s.phaseId && '\n' !in s.phaseLabel
    && t == s.(phaseId := t.phaseId, phaseLabel := t.phaseLabel)
    && Printable(s.cpu) && Printable(s.memory)
    && forall i :: 0 <= i < |s.recent| ==> Printable(s.recent[i])
  }

  lemma DigitsPrintable(s: string)
    requires AllDigits(s, 10)
    ensures Printable(s)
  {
  }

  lemma BarPrintable(percent: int, width: nat)
    ensures Printable(RenderProgressBar(percent, width))
  {
    var p := Clamped(percent);
    FilledBound(p, width);
    DigitsPrintable(NumText(p, 10));
    var filled := p * width / 100;
    PrintableBoth("[", Repeat('=', filled));
    PrintableBoth("[" + Repeat('=', filled), Repeat('-', width - filled));
    PrintableBoth("[" + Repeat('=', filled) + Repeat('-', width - filled), "] ");
    PrintableBoth("[" + Repeat('=', filled) + Repeat('-', width - filled) + "] ", NumText(p, 10));
    PrintableBoth("[" + Repeat('=', filled) + Repeat('-', width - filled) + "] " + NumText(p, 10), "%");
  }

  lemma PrintableBoth(a: string, b: string)
    requires Printable(a) && Printable(b)
    ensures Printable(a + b)
  {
  }

  lemma ElapsedPrintable(seconds: nat)
    ensures Printable(FormatElapsed(seconds))
  {
    DigitsPrintable(NumText(seconds / 60, 10));
    DigitsPrintable(NumText(seconds % 60, 10));
  }

  lemma LabelShown(color: bool, name: string, value: string, shown: string)
    requires Printable(name) && Shows(value, shown)
    ensures Shows(Label(color, name) + value, Label(false, name) + shown)
  {
    hide Shows, ControlSeq;
    CodeDigits();
    ShowsText("  ");
    ShowsText(name);
    ShowsStyled(color, "2", name, name);
    ShowsBoth("  ", "  ", Styled(color, "2", name), name);
    ShowsBoth("  " + Styled(color, "2", name), "  " + name, "  ", "  ");
    ShowsBoth(Label(color, name), Label(false, name), value, shown);
  }

  lemma TitleShown(color: bool, app: string, shown: string)
    requires Shows(app, shown)
    ensures Shows(Styled(color, "1", "Building " + Styled(color, "36", app)), "Building " + shown)
  {
    hide Shows, ControlSeq, Styled;
    CodeDigits();
    ShowsText("Building ");
    ShowsStyled(color, "36", app, shown);
    ShowsBoth("Building ", "Building ", Styled(color, "36", app), shown);
    ShowsStyled(color, "1", "Building " + Styled(color, "36", app), "Building " + shown);
  }

  lemma LogLineShown(color: bool, line: string)
    requires Printable(line)
    ensures Shows(LogLine(color, line), LogLine(false, line))
  {
    hide Shows, ControlSeq;
    CodeDigits();
    var t := Truncate(line, MAX_LOG_LINE);
    assert Printable(t) by {
      PrintableBoth(line[..if |line| > 100 then 100 else |line|], if |line| > 100 then "..." else "");
    }
    ShowsText("  ");
    ShowsText(t);
    ShowsStyled(color, "2", t, t);
    ShowsBoth("  ", "  ", Styled(color, "2", t), t);
  }

  lemma LogTitleShown(color: bool)
    ensures Shows("  " + Styled(color, "2", LOG_TITLE), "  " + LOG_TITLE)
  {
    hide Shows, ControlSeq;
    CodeDigits();
    ShowsText("  ");
    ShowsText(LOG_TITLE);
    ShowsStyled(color, "2", LOG_TITLE, LOG_TITLE);
    ShowsBoth("  ", "  ", Styled(color, "2", LOG_TITLE), LOG_TITLE);
  }

  lemma PhaseShown(color: bool, s: Status, t: Status)
    requires Shows(s.phaseId, t.phaseId) && Shows(s.phaseLabel, t.phaseLabel)
    ensures Shows(Label(color, "Phase   ") + (s.phaseId + " - " + s.phaseLabel),
                  Label(false, "Phase   ") + (t.phaseId + " - " + t.phaseLabel))
  {
    hide Shows, Label;
    ShowsText(" - ");
    ShowsBoth(s.phaseId, t.phaseId, " - ", " - ");
    ShowsBoth(s.phaseId + " - ", t.phaseId + " - ", s.phaseLabel, t.phaseLabel);
    LabelShown(color, "Phase   ", s.phaseId + " - " + s.phaseLabel, t.phaseId + " - " + t.phaseLabel);
  }

  lemma FigureShown(color: bool, name: string, value: string)
    requires Printable(name) && Printable(value)
    ensures Shows(Label(color, name) + value, Label(false, name) + value)
  {
    hide Shows, Label;
    ShowsText(value);
    LabelShown(color, name, value, value);
  }

  lemma HeadShown(color: bool, app: string, s: Status, app2: string, t: Status)
    requires ShowsAs(app, s, app2, t)
    ensures ShowsEach(Head(color, app, s), Head(false, app2, t))
  {
    hide Shows, Label, RenderProgressBar, FormatElapsed, ControlSeq;
    ShowsText("");
    TitleShown(color, app, app2);
    PhaseShown(color, s, t);
    BarPrintable(s.percent, 30);
    FigureShown(color, "Progress", RenderProgressBar(s.percent, 30));
    ElapsedPrintable(s.elapsed);
    FigureShown(color, "Elapsed ", FormatElapsed(s.elapsed));
    FigureShown(color, "CPU     ", s.cpu);
    FigureShown(color, "Memory  ", s.memory);
  }

  lemma {:induction false} LogShown(color: bool, recent: seq<string>)
    requires forall i :: 0 <= i < |recent| ==> Printable(recent[i])
    ensures ShowsEach(LogLines(color, recent), LogLines(false, recent))
  {
    hide Shows, LogLine;
    if recent != [] {
      var n := |recent| - 1;
      LogShown(color, recent[..n]);
      LogLineShown(color, recent[n]);
    }
  }

  /** Each line of a frame shows as the same line without colours. */
  lemma FrameShown(color: bool, app: string, s: Status, app2: string, t: Status)
    requires ShowsAs(app, s, app2, t)
    ensures ShowsEach(Frame(color, app, s), Visible(app2, t))
  {
    hide Shows, Head, LogLines, Styled, Printable;
    HeadShown(color, app, s, app2, t);
    if s.recent == [] {
      assert Frame(color, app, s) == Head(color, app, s) && Visible(app2, t) == Head(false, app2, t);
    } else {
      EmptyShown();
      LogTitleShown(color);
      PlainLabel();
      LogShown(color, s.recent);
      EachBoth(["", "  " + Styled(color, "2", LOG_TITLE)], ["", "  " + LOG_TITLE],
               LogLines(color, s.recent), LogLines(false, s.recent));
      EachBoth(Head(color, app, s), Head(false, app2, t),
               ["", "  " + Styled(color, "2", LOG_TITLE)] + LogLines(color, s.recent),
               ["", "  " + LOG_TITLE] + LogLines(false, s.recent));
    }
  }

  lemma EmptyShown()
    ensures Shows("", "")
  {
    ShowsText("");
  }

  lemma PlainLabel()
    ensures Styled(false, "2", LOG_TITLE) == LOG_TITLE
  {
  }

  function FramesOf(color: bool, app: string, states: seq<Status>): (f: seq<seq<string>>)
    ensures |f| == |states| && forall i :: 0 <= i < |f| ==> f[i] == Frame(color, app, states[i])
  {
    seq(|states|, i requires 0 <= i < |states| => Frame(color, app, states[i]))
  }

  ghost predicate AllShowAs(app: string, states: seq<Status>, app2: string, shown: seq<Status>) {
    |states| == |shown| && forall i :: 0 <= i < |states| ==> ShowsAs(app, states[i], app2, shown[i])
  }

  /**
   After any number of renders the screen is the earlier contents followed by exactly what the latest
   frame shows, with or without colours, and the cursor is on the empty row below it.
   */
  lemma ScreenIsLatestFrame(above: seq<string>, color: bool, app: string, states: seq<Status>, app2: string,
                            shown: seq<Status>)
    requires states != [] && AllShowAs(app, states, app2, shown)
    ensures Show(Below(above), Painted(FramesOf(color, app, states)))
         == Below(above + Visible(app2, shown[|shown| - 1]))
  {
    hide Show, Below, Painted, ShowsEach, Frame, ShowsAs, NewlineFree;
    var frames, texts := FramesOf(color, app, states), FramesOf(false, app2, shown);
    forall i | 0 <= i < |frames| ensures ShowsEach(frames[i], texts[i]) && NewlineFree(frames[i]) {
      FrameShown(color, app, states[i], app2, shown[i]);
      FrameNewlineFree(color, app, states[i], app2, shown[i]);
    }
    OnlyLatestFrame(above, frames, texts, "");
    assert Painted(frames) + "" == Painted(frames);
    ShowNothing(Below(above + Latest(texts)));
  }

  lemma LabelNewlineFree(color: bool, name: string, value: string)
    requires '\n' !in name && '\n' !in value
    ensures '\n' !in Label(color, name) + value
  {
    CodeDigits();
    StyledNewlineFree(color, "2", name);
    hide Styled;
  }

  lemma HeadNewlineFree(color: bool, app: string, s: Status, app2: string, t: Status)
    requires ShowsAs(app, s, app2, t)
    ensures NewlineFree(Head(color, app, s))
  {
    hide Label, Styled, RenderProgressBar, FormatElapsed, Shows;
    CodeDigits();
    StyledNewlineFree(color, "36", app);
    StyledNewlineFree(color, "1", "Building " + Styled(color, "36", app));
    LabelNewlineFree(color, "Phase   ", s.phaseId + " - " + s.phaseLabel);
    BarPrintable(s.percent, 30);
    LabelNewlineFree(color, "Progress", RenderProgressBar(s.percent, 30));
    ElapsedPrintable(s.elapsed);
    LabelNewlineFree(color, "Elapsed ", FormatElapsed(s.elapsed));
    LabelNewlineFree(color, "CPU     ", s.cpu);
    LabelNewlineFree(color, "Memory  ", s.memory);
  }

  lemma {:induction false} LogNewlineFree(color: bool, recent: seq<string>)
    requires forall i :: 0 <= i < |recent| ==> Printable(recent[i])
    ensures NewlineFree(LogLines(color, recent))
  {
    hide Styled;
    if recent != [] {
      var n := |recent| - 1;
      LogNewlineFree(color, recent[..n]);
      CodeDigits();
      StyledNewlineFree(color, "2", Truncate(recent[n], MAX_LOG_LINE));
    }
  }

  lemma FrameNewlineFree(color: bool, app: string, s: Status, app2: string, t: Status)
    requires ShowsAs(app, s, app2, t)
    ensures NewlineFree(Frame(color, app, s))
  {
    hide Head, LogLines, Styled, Printable, Shows;
    HeadNewlineFree(color, app, s, app2, t);
    LogNewlineFree(color, s.recent);
    CodeDigits();
    StyledNewlineFree(color, "2", LOG_TITLE);
  }

  /** The same for the view itself: what it has sent leaves exactly the latest frame on the screen. */
  lemma ViewShowsLatest(v: View, above: seq<string>, states: seq<Status>, app2: string, shown: seq<Status>)
    requires v.Valid() && v.frames == FramesOf(v.color, v.appLabel, states)
    requires states != [] && AllShowAs(v.appLabel, states, app2, shown)
    ensures Show(Below(above), v.sent) == Below(above + Visible(app2, shown[|shown| - 1]))
  {
    hide Show, Below, Painted, ShowsEach, Frame, ShowsAs, NewlineFree;
    ScreenIsLatestFrame(above, v.color, v.appLabel, states, app2, shown);
  }

  lemma FullOnlyAtHundred(p: nat, width: nat)
    requires p <= 100 && width > 0
    ensures p * width / 100 == width <==> p == 100
  {
    if p < 100 {
      assert p * width <= 99 * width;
      assert 99 * width < 100 * width;
    }
  }

  lemma BarShape(filled: nat, width: nat, tail: string)
    requires filled <= width && tail != "" && tail[0] == ']'
    ensures var bar := "[" + Repeat('=', filled) + Repeat('-', width - filled) + tail;
            && |bar| == width + 1 + |tail| && bar[0] == '[' && bar[width + 1] == ']'
            && (forall i :: 1 <= i <= width ==> bar[i] == if i <= filled then '=' else '-')
  {
  }

  /** The bar has the asked-for width, is filled in proportion, and is full exactly at 100 percent. */
  lemma BarFill(percent: int, width: nat)
    requires width > 0
    ensures var bar, filled := RenderProgressBar(percent, width), Clamped(percent) * width / 100;
            && |bar| >= width + 2 && bar[0] == '[' && bar[width + 1] == ']'
            && (forall i :: 1 <= i <= width ==> bar[i] == if i <= filled then '=' else '-')
            && (filled == width <==> percent >= 100)
  {
    hide NumText, Repeat;
    var p := Clamped(percent);
    FilledBound(p, width);
    FullOnlyAtHundred(p, width);
    var filled, number := p * width / 100, NumText(p, 10);
    BarShape(filled, width, "] " + number + "%");
    BarText("[" + Repeat('=', filled) + Repeat('-', width - filled), number);
  }

  lemma BarText(bar: string, number: string)
    ensures bar + "] " + number + "%" == bar + ("] " + number + "%")
  {
  }
}
