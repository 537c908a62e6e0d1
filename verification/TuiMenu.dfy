/** A single-select menu: arrow keys move cyclically, every move repaints in place. */
module TuiMenu {
  import opened Numerals
  import opened StripAnsi
  import opened Terminal
  import opened Text
  import opened Wrappers

  datatype Key = OtherKey | UpKey | DownKey | EnterKey | EscapeKey

  function Clamped(index: int, n: nat): nat
    requires n > 0
  {
    if index < 0 then 0 else if index > n - 1 then n - 1 else index
  }

  /** How many of the keys are this one. */
  function Presses(keys: seq<Key>, k: Key): nat {
    if keys == [] then 0 else Presses(keys[..|keys| - 1], k) + if keys[|keys| - 1] == k then 1 else 0
  }

  predicate Decides(k: Key) { k.EnterKey? || k.EscapeKey? }

  /** The keys before the one that ends the menu. */
  function Moves(keys: seq<Key>): (m: seq<Key>)
    ensures m <= keys && (forall i :: 0 <= i < |m| ==> !Decides(m[i]))
    ensures |m| < |keys| ==> Decides(keys[|m|])
  {
    keys[..FirstIndex(keys, Decides, 0)]
  }

  /** The option marked after these moves. */
  function Position(start: int, moves: seq<Key>, n: nat): (p: nat)
    requires n > 0
    ensures p < n
  {
    (start + Presses(moves, DownKey) - Presses(moves, UpKey)) % n
  }

  function Entry(color: bool, option: string, marked: bool): string {
    if marked then Styled(color, "36", Styled(color, "1", "> " + option)) else "  " + option
  }

  function Entries(color: bool, options: seq<string>, selected: int): (e: seq<string>)
    ensures |e| == |options|
    ensures forall i :: 0 <= i < |e| ==> e[i] == Entry(color, options[i], i == selected)
  {
    seq(|options|, i requires 0 <= i < |options| => Entry(color, options[i], i == selected))
  }

  function Menu(color: bool, title: string, options: seq<string>, selected: int): seq<string> {
    ["", Styled(color, "1", title)] + Entries(color, options, selected)
  }

  /** The frame painted at the start and after each move that is not ignored. */
  function Frames(color: bool, title: string, options: seq<string>, start: int, moves: seq<Key>): seq<seq<string>>
    requires options != []
  {
    if moves == [] then [Menu(color, title, options, Position(start, [], |options|))]
    else
      var n := |moves| - 1;
      Frames(color, title, options, start, moves[..n])
      + if moves[n].OtherKey? then [] else [Menu(color, title, options, Position(start, moves, |options|))]
  }

  lemma DownStep(start: int, moves: seq<Key>, n: nat)
    requires n > 0
    ensures Position(start, moves + [DownKey], n) == (Position(start, moves, n) + 1) % n
    ensures Position(start, moves + [UpKey], n) == (Position(start, moves, n) - 1 + n) % n
    ensures Position(start, moves + [OtherKey], n) == Position(start, moves, n)
  {
    assert forall k: Key :: (moves + [k])[..|moves|] == moves;
    var x := start + Presses(moves, DownKey) - Presses(moves, UpKey);
    ModStep(x, 1, n);
    ModStep(x, n - 1, n);
    ModShift(x - 1, n);
    assert Presses(moves + [DownKey], DownKey) == Presses(moves, DownKey) + 1;
    assert Presses(moves + [UpKey], UpKey) == Presses(moves, UpKey) + 1;
  }

  lemma ModStep(x: int, d: int, n: nat)
    requires n > 0
    ensures (x + d) % n == (x % n + d) % n
  {
    var q, y := x / n, x % n + d;
    var p := y / n;
    assert x == q * n + x % n && y == p * n + y % n;
    Distribute(q, p, n);
    ModUnique(x + d, n, q + p, y % n);
  }

  lemma ModShift(x: int, n: nat)
    requires n > 0
    ensures (x + n) % n == x % n
  {
    Distribute(x / n, 1, n);
    ModUnique(x + n, n, x / n + 1, x % n);
  }

  lemma Distribute(q: int, p: int, n: int)
    ensures (q + p) * n == q * n + p * n
  {
  }

  lemma ModUnique(x: int, n: nat, q: int, r: nat)
    requires r < n && x == q * n + r
    ensures x % n == r
  {
    var k := q - x / n;
    assert x == x / n * n + x % n;
    Distribute(x / n, k, n);
    assert k * n == x % n - r;
    NoMultiple(k, n);
  }

  lemma NoMultiple(k: int, n: int)
    requires n > 0
    ensures k == 0 || k * n >= n || k * n <= 0 - n
  {
    if k > 0 {
      assert k * n >= 1 * n;
    } else if k < 0 {
      assert k * n <= (0 - 1) * n;
    }
  }

  lemma StartPosition(start: int, n: nat)
    requires 0 <= start < n
    ensures Position(start, [], n) == start
  {
  }

  /** `linesRendered` and `sent` are what the last render left; the results what this one leaves. */
  method Render(color: bool, title: string, options: seq<string>, selected: int, linesRendered: nat, sent: string)
    returns (lines: nat, all: string)
    ensures lines == Newlines(Ended(Menu(color, title, options, selected)))
    ensures all == sent + Paint(linesRendered, Menu(color, title, options, selected))
  {
    hide Ended, Newlines, Styled, Entry, ControlSeq, Paint;
    ghost var menu := Menu(color, title, options, selected);
    NoLines();
    var text := AppendLine("", "", []);
    assert [] + [""] == [""];
    text := AppendLine(text, Styled(color, "1", title), [""]);
    ghost var head := ["", Styled(color, "1", title)];
    assert [""] + [Styled(color, "1", title)] == head;
    assert Entries(color, options, selected)[..0] == [] && head + [] == head;
    for i := 0 to |options|
      invariant text == Ended(head + Entries(color, options, selected)[..i])
    {
      var line := Entry(color, options[i], i == selected);
      text := AppendLine(text, line, head + Entries(color, options, selected)[..i]);
      assert head + Entries(color, options, selected)[..i] + [line]
          == head + Entries(color, options, selected)[..i + 1];
    }
    assert Entries(color, options, selected)[..|options|] == Entries(color, options, selected);
    PaintText(linesRendered, menu, sent);
    all := sent;
    if linesRendered > 0 {
      all := all + (ControlSeq(NumText(linesRendered, 10), 'A') + ControlSeq("0", 'J'));
    }
    all := all + text;
    lines := Newlines(text);
  }

  /** The lines may hold codes that only style; `title2` and `shown` are what they show. */
  ghost predicate MenuShowsAs(title: string, options: seq<string>, title2: string, shown: seq<string>) {
    && Shows(title, title2) && '\n' !in title && |options| == |shown|
    && forall i :: 0 <= i < |options| ==> Shows(options[i], shown[i]) && '\n' !in options[i]
  }

  lemma EntryShown(color: bool, option: string, text: string, marked: bool)
    requires Shows(option, text) && '\n' !in option
    ensures Shows(Entry(color, option, marked), Entry(false, text, marked))
    ensures '\n' !in Entry(color, option, marked)
  {
    hide Shows, ControlSeq;
    CodeDigits();
    if marked {
      ShowsText("> ");
      ShowsBoth("> ", "> ", option, text);
      ShowsStyled(color, "1", "> " + option, "> " + text);
      ShowsStyled(color, "36", Styled(color, "1", "> " + option), "> " + text);
      StyledNewlineFree(color, "1", "> " + option);
      StyledNewlineFree(color, "36", Styled(color, "1", "> " + option));
    } else {
      ShowsText("  ");
      ShowsBoth("  ", "  ", option, text);
    }
  }

  lemma MenuShown(color: bool, title: string, options: seq<string>, title2: string, shown: seq<string>, selected: int)
    requires MenuShowsAs(title, options, title2, shown)
    ensures ShowsEach(Menu(color, title, options, selected), Menu(false, title2, shown, selected))
    ensures NewlineFree(Menu(color, title, options, selected))
  {
    hide Shows, Entry, ControlSeq;
    CodeDigits();
    ShowsText("");
    ShowsStyled(color, "1", title, title2);
    StyledNewlineFree(color, "1", title);
    forall i | 0 <= i < |options|
      ensures Shows(Entry(color, options[i], i == selected), Entry(false, shown[i], i == selected))
              && '\n' !in Entry(color, options[i], i == selected)
    {
      EntryShown(color, options[i], shown[i], i == selected);
    }
    assert Styled(false, "1", title2) == title2;
    hide Styled;
  }

  /** The frames of a menu, each against what it shows; the last one marks the current position. */
  lemma {:induction false} FramesShown(color: bool, title: string, options: seq<string>, title2: string,
                                       shown: seq<string>, start: int, moves: seq<Key>)
    requires options != [] && MenuShowsAs(title, options, title2, shown)
    requires forall i :: 0 <= i < |moves| ==> !Decides(moves[i])
    ensures |options| == |shown|
    ensures var f, v := Frames(color, title, options, start, moves), Frames(false, title2, shown, start, moves);
            && |f| == |v| > 0 && AllNewlineFree(f)
            && (forall i :: 0 <= i < |f| ==> ShowsEach(f[i], v[i]))
            && Latest(v) == Menu(false, title2, shown, Position(start, moves, |shown|))
    decreases |moves|
  {
    assert |options| == |shown|;
    hide ShowsEach, Menu, NewlineFree, MenuShowsAs, Position;
    var p := Position(start, moves, |options|);
    MenuShown(color, title, options, title2, shown, p);
    if moves != [] {
      var n := |moves| - 1;
      FramesShown(color, title, options, title2, shown, start, moves[..n]);
      assert moves == moves[..n] + [moves[n]];
      DownStep(start, moves[..n], |options|);
    }
  }

  /**
   Reads keys until one decides. None: the keys ran out and the menu is still waiting. The screen
   then shows exactly one menu, with the current position marked.
   */
  method Select(color: bool, title: string, options: seq<string>, defaultIndex: int, keys: seq<Key>)
    returns (chosen: Option<int>, sent: string)
    ensures options == [] ==> chosen == Some(-1) && sent == ""
    ensures options != [] ==>
              var moves, start := Moves(keys), Clamped(defaultIndex, |options|);
              && chosen == (if |moves| == |keys| then None
                            else if keys[|moves|].EscapeKey? then Some(-1)
                            else Some((start + Presses(moves, DownKey) - Presses(moves, UpKey)) % |options|))
              && sent == Painted(Frames(color, title, options, start, moves))
  {
    hide Menu, Paint, Painted, Newlines, Ended, Presses, Position, Frames, Moves, Decides, Height;
    if |options| == 0 { return Some(-1), ""; }
    var selected := defaultIndex;
    if selected < 0 { selected := 0; }
    if selected > |options| - 1 { selected := |options| - 1; }
    ghost var start := selected;
    StartPosition(start, |options|);
    var linesRendered;
    linesRendered, sent := Render(color, title, options, selected, 0, "");
    FirstFrame(color, title, options, selected);
    for i := 0 to |keys|
      invariant 0 <= selected < |options| && selected == Position(start, keys[..i], |options|)
      invariant forall j :: 0 <= j < i ==> !Decides(keys[j])
      invariant sent == Painted(Frames(color, title, options, start, keys[..i]))
      invariant linesRendered == Height(Frames(color, title, options, start, keys[..i]))
    {
      assert keys[..i + 1] == keys[..i] + [keys[i]];
      DownStep(start, keys[..i], |options|);
      Deciding(keys[i]);
      match keys[i]
      case UpKey =>
        selected := (selected - 1 + |options|) % |options|;
        linesRendered, sent := Render(color, title, options, selected, linesRendered, sent);
        NextFrame(color, title, options, start, keys[..i], UpKey);
      case DownKey =>
        selected := (selected + 1) % |options|;
        linesRendered, sent := Render(color, title, options, selected, linesRendered, sent);
        NextFrame(color, title, options, start, keys[..i], DownKey);
      case EnterKey =>
        MovesAre(keys, i);
        PositionIs(start, keys[..i], |options|);
        return Some(selected), sent;
      case EscapeKey =>
        MovesAre(keys, i);
        return Some(-1), sent;
      case OtherKey =>
        NextFrame(color, title, options, start, keys[..i], OtherKey);
    }
    assert keys[..|keys|] == keys;
    MovesAre(keys, |keys|);
    chosen := None;
  }

  lemma Deciding(k: Key)
    ensures Decides(k) <==> k.EnterKey? || k.EscapeKey?
  {
  }

  lemma PositionIs(start: int, moves: seq<Key>, n: nat)
    requires n > 0
    ensures Position(start, moves, n) == (start + Presses(moves, DownKey) - Presses(moves, UpKey)) % n
  {
  }

  lemma MovesAre(keys: seq<Key>, i: nat)
    requires i <= |keys| && (forall j :: 0 <= j < i ==> !Decides(keys[j])) && (i < |keys| ==> Decides(keys[i]))
    ensures Moves(keys) == keys[..i]
  {
  }

  lemma FirstFrame(color: bool, title: string, options: seq<string>, start: nat)
    requires start < |options|
    ensures var m := Menu(color, title, options, start);
            var f := Frames(color, title, options, start, []);
            "" + Paint(0, m) == Painted(f) && Height(f) == Newlines(Ended(m))
  {
    hide Menu, Paint, Newlines, Ended;
    StartPosition(start, |options|);
    var m := Menu(color, title, options, start);
    PaintedSnoc([], m);
    assert [] + [m] == [m];
    assert Painted([]) == "" && Height([]) == 0;
  }

  lemma NextFrame(color: bool, title: string, options: seq<string>, start: int, moves: seq<Key>, k: Key)
    requires options != []
    ensures var f := Frames(color, title, options, start, moves);
            var g := Frames(color, title, options, start, moves + [k]);
            var m := Menu(color, title, options, Position(start, moves + [k], |options|));
            if k.OtherKey? then g == f
            else Painted(g) == Painted(f) + Paint(Height(f), m) && Height(g) == Newlines(Ended(m))
  {
    hide Menu, Paint, Painted, Newlines, Ended, Position;
    var f := Frames(color, title, options, start, moves);
    assert (moves + [k])[..|moves|] == moves;
    assert f + [] == f;
    PaintedSnoc(f, Menu(color, title, options, Position(start, moves + [k], |options|)));
  }

  /** Below whatever was on the screen there is one menu, with the current position and no other marked. */
  lemma ScreenShowsMenu(above: seq<string>, color: bool, title: string, options: seq<string>, title2: string,
                        shown: seq<string>, start: int, moves: seq<Key>)
    requires options != [] && MenuShowsAs(title, options, title2, shown)
    requires forall i :: 0 <= i < |moves| ==> !Decides(moves[i])
    ensures |options| == |shown|
    ensures Show(Below(above), Painted(Frames(color, title, options, start, moves)))
         == Below(above + Menu(false, title2, shown, Position(start, moves, |options|)))
  {
    hide Show, Below, Painted, ShowsEach, Menu, MenuShowsAs, Position, AllNewlineFree, Decides;
    FramesShown(color, title, options, title2, shown, start, moves);
    var f, v := Frames(color, title, options, start, moves), Frames(false, title2, shown, start, moves);
    OnlyLatestFrame(above, f, v, "");
    assert Painted(f) + "" == Painted(f);
    ShowNothing(Below(above + Latest(v)));
  }
}
