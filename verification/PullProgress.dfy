/**
 Progress of an image pull: each layer has a line that is redrawn in place, status lines are just
 printed. On a terminal the result is right exactly while no status line lies below a redrawn layer.
 */
module PullProgress {
  import opened Numerals
  import opened StripAnsi
  import opened Terminal
  import opened Text
  import opened Wrappers

  /** `id` is the layer's hash, or empty for a status line. */
  datatype Event = Event(id: string, status: string, progress: string)

  function TextOf(e: Event): string {
    (if e.id != "" then e.id + ": " + e.status else e.status) + (if e.progress != "" then " " + e.progress else "")
  }

  /** What the renderer remembers: the layers' latest texts, and each layer's place among them. */
  datatype Tracked = Tracked(order: seq<string>, indexOf: map<string, nat>)

  ghost predicate Consistent(k: Tracked) { forall id :: id in k.indexOf ==> k.indexOf[id] < |k.order| }

  function Redraw(linesUp: nat, text: string): string {
    ControlSeq(NumText(linesUp, 10), 'A') + "\r" + ControlSeq("2", 'K') + text
    + ControlSeq(NumText(linesUp, 10), 'B') + "\r"
  }

  /** The bytes an event sends and what is remembered after it. */
  function React(tty: bool, k: Tracked, e: Event): (r: (string, Tracked))
    requires Consistent(k)
    ensures Consistent(r.1)
  {
    var text := TextOf(e);
    if !tty || e.id == "" then (text + "\n", k)
    else if e.id !in k.indexOf then (text + "\n", Tracked(k.order + [text], k.indexOf[e.id := |k.order|]))
    else
      var idx := k.indexOf[e.id];
      (Redraw(|k.order| - idx, text), k.(order := k.order[idx := text]))
  }

  class Renderer {
    const isTTY: bool
    var order: seq<string>
    var indexOf: map<string, nat>
    var sent: string

    ghost function Now(): Tracked
      reads this
    {
      Tracked(order, indexOf)
    }

    constructor (isTTY: bool)
      ensures this.isTTY == isTTY && Now() == Tracked([], map[]) && sent == ""
    {
      this.isTTY, order, indexOf, sent := isTTY, [], map[], "";
    }

    method OnEvent(e: Event)
      requires Consistent(Now())
      modifies this
      ensures Consistent(Now())
      ensures sent == old(sent) + React(isTTY, old(Now()), e).0 && Now() == React(isTTY, old(Now()), e).1
    {
      hide ControlSeq, NumText;
      var text := e.status;
      if e.id != "" { text := e.id + ": " + e.status; }
      if e.progress != "" { text := text + " " + e.progress; } else { assert text + "" == text; }
      assert text == TextOf(e);
      if !isTTY || e.id == "" {
        sent := sent + (text + "\n");
        return;
      }
      if e.id !in indexOf {
        indexOf := indexOf[e.id := |order|];
        order := order + [text];
        sent := sent + (text + "\n");
        return;
      }
      var idx := indexOf[e.id];
      order := order[idx := text];
      var linesUp := |order| - idx;
      sent := sent + Redraw(linesUp, text);
    }
  }

  // ----- The rows a viewer should see -----

  datatype Row = Row(id: string, text: string)

  function Texts(rows: seq<Row>): (t: seq<string>)
    ensures |t| == |rows| && forall i :: 0 <= i < |t| ==> t[i] == rows[i].text
  {
    seq(|rows|, i requires 0 <= i < |rows| => rows[i].text)
  }

  /** Index of the layer's row, or the number of rows. */
  function Place(rows: seq<Row>, id: string): (p: nat)
    ensures p <= |rows| && (p < |rows| ==> rows[p].id == id)
    ensures forall i :: 0 <= i < p ==> rows[i].id != id
  {
    FirstIndex(rows, (r: Row) => r.id == id, 0)
  }

  predicate Redraws(rows: seq<Row>, e: Event) { e.id != "" && Place(rows, e.id) < |rows| }

  /** A layer's row changes in place; anything else is a new row at the end. */
  function Ideal(rows: seq<Row>, e: Event): seq<Row> {
    var row := Row(e.id, TextOf(e));
    if Redraws(rows, e) then rows[Place(rows, e.id) := row] else rows + [row]
  }

  /** The texts of the layers alone. */
  function Layers(rows: seq<Row>): (l: seq<string>)
    ensures |l| <= |rows|
  {
    if rows == [] then []
    else
      var n := |rows| - 1;
      Layers(rows[..n]) + if rows[n].id != "" then [rows[n].text] else []
  }

  /** Status lines among the rows from `p` on. */
  function StatusLines(rows: seq<Row>, p: nat): nat
    requires p <= |rows|
  {
    |rows| - p - |Layers(rows[p..])|
  }

  lemma {:induction false} LayersAppend(a: seq<Row>, b: seq<Row>)
    ensures Layers(a + b) == Layers(a) + Layers(b)
    decreases |b|
  {
    if b == [] {
      assert a + b == a;
    } else {
      var n := |b| - 1;
      assert (a + b)[..|a| + n] == a + b[..n] && (a + b)[|a| + n] == b[n];
      LayersAppend(a, b[..n]);
      Assoc(Layers(a), Layers(b[..n]), if b[n].id != "" then [b[n].text] else []);
    }
  }

  lemma OneLayer(r: Row)
    ensures Layers([r]) == if r.id != "" then [r.text] else []
  {
    assert [r][..0] == [];
  }

  lemma LayersSplit(rows: seq<Row>, p: nat)
    requires p < |rows|
    ensures Layers(rows) == Layers(rows[..p]) + Layers([rows[p]]) + Layers(rows[p + 1..])
    ensures Layers(rows[p..]) == Layers([rows[p]]) + Layers(rows[p + 1..])
  {
    hide Layers;
    var a, b, d := Layers(rows[..p]), Layers([rows[p]]), Layers(rows[p + 1..]);
    Cut(rows, p);
    LayersAppend([rows[p]], rows[p + 1..]);
    LayersAppend(rows[..p], rows[p..]);
    assert Layers(rows) == a + (b + d);
    Assoc(a, b, d);
  }

  lemma Cut(rows: seq<Row>, p: nat)
    requires p < |rows|
    ensures rows[p..] == [rows[p]] + rows[p + 1..] && rows == rows[..p] + rows[p..]
  {
  }

  /** Replacing a layer's text replaces it among the layers. */
  lemma LayersUpdate(rows: seq<Row>, p: nat, text: string)
    requires p < |rows| && rows[p].id != ""
    ensures var i := |Layers(rows[..p])|;
            && i < |Layers(rows)| && Layers(rows[p := Row(rows[p].id, text)]) == Layers(rows)[i := text]
            && |Layers(rows[p..])| == |Layers(rows)| - i
  {
    hide Layers;
    var next := rows[p := Row(rows[p].id, text)];
    LayersSplit(rows, p);
    LayersSplit(next, p);
    assert next[..p] == rows[..p] && next[p + 1..] == rows[p + 1..];
    OneLayer(rows[p]);
    OneLayer(next[p]);
  }

  /** The renderer's memory agrees with the rows. */
  ghost predicate Agrees(k: Tracked, rows: seq<Row>) {
    && k.order == Layers(rows)
    && forall id :: (id in k.indexOf <==> id != "" && Place(rows, id) < |rows|)
                    && (id in k.indexOf ==> k.indexOf[id] == |Layers(rows[..Place(rows, id)])|)
  }

  lemma PlaceIs(rows: seq<Row>, id: string, p: nat)
    requires p <= |rows| && (p < |rows| ==> rows[p].id == id) && forall i :: 0 <= i < p ==> rows[i].id != id
    ensures Place(rows, id) == p
  {
    hide FirstIndex;
  }

  lemma PlaceAfterUpdate(rows: seq<Row>, p: nat, row: Row, id: string)
    requires p < |rows| && row.id == rows[p].id
    ensures Place(rows[p := row], id) == Place(rows, id)
  {
    PlaceIs(rows[p := row], id, Place(rows, id));
    hide Place;
  }

  lemma LayersBefore(rows: seq<Row>, p: nat, row: Row, q: nat)
    requires p < |rows| && q <= |rows| && row.id == rows[p].id
    ensures |Layers(rows[p := row][..q])| == |Layers(rows[..q])|
  {
    hide Layers;
    var next := rows[p := row];
    if p < q {
      assert next[..q] == rows[..q][p := row];
      if row.id != "" {
        LayersUpdate(rows[..q], p, row.text);
      } else {
        LayersSplit(rows[..q], p);
        LayersSplit(next[..q], p);
        assert rows[..q][..p] == next[..q][..p] && rows[..q][p + 1..] == next[..q][p + 1..];
        OneLayer(rows[p]);
        OneLayer(row);
      }
    } else {
      assert next[..q] == rows[..q];
    }
  }

  lemma PlaceAfterNew(rows: seq<Row>, row: Row, id: string)
    ensures Place(rows + [row], id) ==
            if Place(rows, id) < |rows| then Place(rows, id) else if row.id == id then |rows| else |rows| + 1
  {
    var p := Place(rows, id);
    PlaceIs(rows + [row], id, if p < |rows| then p else if row.id == id then |rows| else |rows| + 1);
    hide Place;
  }

  lemma RedrawAgrees(k: Tracked, rows: seq<Row>, e: Event)
    requires Consistent(k) && Agrees(k, rows) && Redraws(rows, e)
    ensures Agrees(React(true, k, e).1, Ideal(rows, e))
  {
    hide Layers, Place, Redraw, TextOf;
    var p, row := Place(rows, e.id), Row(e.id, TextOf(e));
    LayersUpdate(rows, p, TextOf(e));
    forall id ensures Place(rows[p := row], id) == Place(rows, id)
                      && |Layers(rows[p := row][..Place(rows, id)])| == |Layers(rows[..Place(rows, id)])| {
      PlaceAfterUpdate(rows, p, row, id);
      LayersBefore(rows, p, row, Place(rows, id));
    }
  }

  lemma NewAgrees(k: Tracked, rows: seq<Row>, e: Event)
    requires Consistent(k) && Agrees(k, rows) && !Redraws(rows, e)
    ensures Agrees(React(true, k, e).1, Ideal(rows, e))
  {
    hide Layers, Place, Redraw, TextOf;
    var row := Row(e.id, TextOf(e));
    LayersAppend(rows, [row]);
    OneLayer(row);
    assert Layers(rows) + [] == Layers(rows);
    forall id ensures Place(rows + [row], id) ==
            (if Place(rows, id) < |rows| then Place(rows, id) else if row.id == id then |rows| else |rows| + 1)
      ensures Place(rows, id) < |rows| ==> (rows + [row])[..Place(rows, id)] == rows[..Place(rows, id)]
    {
      PlaceAfterNew(rows, row, id);
    }
    assert (rows + [row])[..|rows|] == rows;
  }

  // ----- On the terminal -----

  lemma RedrawShown(lines: seq<string>, n: nat, text: string, shown: string, rest: string)
    requires 0 < n <= |lines| && Shows(text, shown)
    ensures Show(Below(lines), Redraw(n, text) + rest) == Show(Below(lines[|lines| - n := shown]), rest)
  {
    hide Show, ControlSeq, Value, NumText, PutAll;
    var t := Below(lines);
    var up, erase, down := ControlSeq(NumText(n, 10), 'A'), ControlSeq("2", 'K'), ControlSeq(NumText(n, 10), 'B');
    ValueOfNumText(n, 10);
    RedrawPieces(up, erase, text, down, rest);
    ShowCsi(t, NumText(n, 10), 'A', "\r" + (erase + (text + (down + ("\r" + rest)))));
    ShowReturn(Up(t, n), erase + (text + (down + ("\r" + rest))));
    ValueTwo();
    ShowCsi(Up(t, n), "2", 'K', text + (down + ("\r" + rest)));
    var u := EraseLine(Up(t, n));
    assert Show(u, text + (down + ("\r" + rest))) == Show(PutAll(u, shown), down + ("\r" + rest));
    PutAtEnd(u, shown);
    assert "" + shown == shown;
    var w := PutAll(u, shown);
    ShowCsi(w, NumText(n, 10), 'B', "\r" + rest);
    ShowReturn(Down(w, n), rest);
    assert Down(w, n).rows == lines[|lines| - n := shown] + [""];
  }

  lemma ValueTwo()
    ensures Value("2", 10) == 2 && AllDigits("2", 10)
  {
    assert "2"[..0] == "";
  }

  lemma RedrawPieces(up: string, erase: string, text: string, down: string, rest: string)
    ensures up + "\r" + erase + text + down + "\r" + rest == up + ("\r" + (erase + (text + (down + ("\r" + rest)))))
  {
  }

  /** The lines really on the screen: a redraw lands too low by the status lines below the layer. */
  function Drawn(events: seq<Event>): (d: seq<string>)
    ensures |d| == |Rows(events)|
  {
    if events == [] then []
    else
      var n := |events| - 1;
      var before, rows, e := Drawn(events[..n]), Rows(events[..n]), events[n];
      if Redraws(rows, e) then
        LayerCounts(rows, Place(rows, e.id));
        before[Place(rows, e.id) + StatusLines(rows, Place(rows, e.id)) := TextOf(e)]
      else before + [TextOf(e)]
  }

  lemma LayerCounts(rows: seq<Row>, p: nat)
    requires p < |rows| && rows[p].id != ""
    ensures p + StatusLines(rows, p) < |rows|
  {
    LayersUpdate(rows, p, "");
  }

  /** One event, showing as `shown`, on whatever lines are there. */
  lemma OneEvent(lines: seq<string>, k: Tracked, rows: seq<Row>, e: Event, shown: string, rest: string)
    requires Consistent(k) && Agrees(k, rows) && Shows(TextOf(e), shown) && |lines| >= |rows|
    ensures Agrees(React(true, k, e).1, Ideal(rows, e))
    ensures Redraws(rows, e) ==> Place(rows, e.id) + StatusLines(rows, Place(rows, e.id)) < |rows|
    ensures var above := |lines| - |rows|;
            Show(Below(lines), React(true, k, e).0 + rest) ==
            Show(Below(if Redraws(rows, e)
                       then lines[above + Place(rows, e.id) + StatusLines(rows, Place(rows, e.id)) := shown]
                       else lines + [shown]), rest)
  {
    hide Show, Below, Place, TextOf, Redraw, Layers, Shows;
    var text := TextOf(e);
    if Redraws(rows, e) {
      RedrawAgrees(k, rows, e);
      LayersUpdate(rows, Place(rows, e.id), text);
      RedrawShown(lines, |Layers(rows[Place(rows, e.id)..])|, text, shown, rest);
    } else {
      NewAgrees(k, rows, e);
      ShowLine(lines, text, shown, rest);
    }
  }

  // ----- Whole pulls -----

  function Pull(tty: bool, events: seq<Event>): (r: (string, Tracked))
    ensures Consistent(r.1)
  {
    if events == [] then ("", Tracked([], map[]))
    else
      var before := Pull(tty, events[..|events| - 1]);
      var r := React(tty, before.1, events[|events| - 1]);
      (before.0 + r.0, r.1)
  }

  function Rows(events: seq<Event>): seq<Row> {
    if events == [] then [] else Ideal(Rows(events[..|events| - 1]), events[|events| - 1])
  }

  /** The texts may hold codes that only style; `seen` are the same events as a viewer reads them. */
  ghost predicate AllShowAs(events: seq<Event>, seen: seq<Event>) {
    && |events| == |seen|
    && forall i :: 0 <= i < |events| ==> events[i].id == seen[i].id && Shows(TextOf(events[i]), TextOf(seen[i]))
  }

  ghost predicate SameIds(rows: seq<Row>, seen: seq<Row>) {
    |rows| == |seen| && forall i :: 0 <= i < |rows| ==> rows[i].id == seen[i].id
  }

  lemma SameNumber(rows: seq<Row>, seen: seq<Row>)
    requires SameIds(rows, seen)
    ensures |rows| == |seen|
  {
  }

  lemma SamePlace(rows: seq<Row>, seen: seq<Row>, id: string)
    requires SameIds(rows, seen)
    ensures Place(rows, id) == Place(seen, id)
  {
    PlaceIs(seen, id, Place(rows, id));
  }

  lemma {:induction false} SameLayers(rows: seq<Row>, seen: seq<Row>)
    requires SameIds(rows, seen)
    ensures |Layers(rows)| == |Layers(seen)|
    decreases |rows|
  {
    if rows != [] {
      SameLayers(rows[..|rows| - 1], seen[..|seen| - 1]);
    }
  }

  /** Where a redraw lands depends on the identifiers alone. */
  lemma SameLanding(rows: seq<Row>, seen: seq<Row>, id: string)
    requires SameIds(rows, seen)
    ensures Place(rows, id) == Place(seen, id)
    ensures StatusLines(rows, Place(rows, id)) == StatusLines(seen, Place(seen, id))
  {
    SamePlace(rows, seen, id);
    var p := Place(rows, id);
    SameLayers(rows[p..], seen[p..]);
  }

  lemma IdealSame(rows: seq<Row>, seen: seq<Row>, e: Event, e2: Event)
    requires SameIds(rows, seen) && e.id == e2.id
    ensures SameIds(Ideal(rows, e), Ideal(seen, e2))
  {
    SamePlace(rows, seen, e.id);
    hide Place, TextOf;
  }

  lemma {:induction false} RowsSame(events: seq<Event>, seen: seq<Event>)
    requires AllShowAs(events, seen)
    ensures SameIds(Rows(events), Rows(seen))
    decreases |events|
  {
    hide Shows, Ideal, SameIds, TextOf;
    if events != [] {
      var n := |events| - 1;
      RowsSame(events[..n], seen[..n]);
      IdealSame(Rows(events[..n]), Rows(seen[..n]), events[n], seen[n]);
    } else {
      NoRows();
    }
  }

  lemma NoRows()
    ensures SameIds([], [])
  {
  }

  lemma AgreesAtStart()
    ensures Agrees(Tracked([], map[]), [])
  {
  }

  lemma Within(above: seq<string>, lines: seq<string>, i: nat, text: string)
    requires i < |lines|
    ensures (above + lines)[|above| + i := text] == above + lines[i := text]
    ensures above + lines + [text] == above + (lines + [text])
  {
  }

  /** Below what was there, the terminal shows exactly the drawn lines, with the cursor under them. */
  lemma {:induction false} ScreenIsDrawn(above: seq<string>, events: seq<Event>, seen: seq<Event>, rest: string)
    requires AllShowAs(events, seen)
    ensures Agrees(Pull(true, events).1, Rows(events))
    ensures Show(Below(above), Pull(true, events).0 + rest) == Show(Below(above + Drawn(seen)), rest)
    decreases |events|
  {
    hide Agrees, React, Ideal, Show, Shows, SameIds, Below, TextOf, StatusLines, Place, Printable;
    if events == [] {
      AgreesAtStart();
      assert "" + rest == rest && above + [] == above;
    } else {
      var n := |events| - 1;
      var k, rows, lines, e := Pull(true, events[..n]), Rows(events[..n]), Drawn(seen[..n]), events[n];
      var sent := React(true, k.1, e).0;
      Assoc(k.0, sent, rest);
      ScreenIsDrawn(above, events[..n], seen[..n], sent + rest);
      RowsSame(events[..n], seen[..n]);
      SameLanding(rows, Rows(seen[..n]), e.id);
      SameNumber(rows, Rows(seen[..n]));
      OneEvent(above + lines, k.1, rows, e, TextOf(seen[n]), rest);
      if Redraws(rows, e) {
        Within(above, lines, Place(rows, e.id) + StatusLines(rows, Place(rows, e.id)), TextOf(seen[n]));
      } else {
        Assoc(above, lines, [TextOf(seen[n])]);
      }
    }
  }

  /** No status line lies below the layer, or both rows concerned already hold the new text. */
  predicate Harmless(rows: seq<Row>, e: Event) {
    Redraws(rows, e) ==>
      var p, s := Place(rows, e.id), StatusLines(rows, Place(rows, e.id));
      s == 0 || (p + s < |rows| && rows[p].text == TextOf(e) == rows[p + s].text)
  }

  ghost predicate RightAt(events: seq<Event>, n: nat)
    requires n <= |events|
  {
    Drawn(events[..n]) == Texts(Rows(events[..n]))
  }

  predicate HarmlessAt(events: seq<Event>, n: nat)
    requires n < |events|
  {
    Harmless(Rows(events[..n]), events[n])
  }

  lemma UpdatesEqual(t: seq<string>, i: nat, j: nat, x: string)
    requires i < |t| && j < |t|
    ensures t[i := x] == t[j := x] <==> i == j || t[i] == x == t[j]
  {
    if t[i] == x == t[j] {
      assert t[i := x] == t && t[j := x] == t;
    }
    if t[i := x] == t[j := x] {
      assert t[i := x][j] == x && t[j := x][i] == x;
    }
  }

  /** From a right screen, an event leaves a right screen exactly when it is harmless. */
  lemma RightExactly(events: seq<Event>, n: nat)
    requires n < |events| && RightAt(events, n)
    ensures RightAt(events, n + 1) <==> HarmlessAt(events, n)
  {
    hide TextOf, Layers, Place, StatusLines;
    assert events[..n + 1][..n] == events[..n];
    var rows, e := Rows(events[..n]), events[n];
    if Redraws(rows, e) {
      var p := Place(rows, e.id);
      LayerCounts(rows, p);
      assert Texts(Ideal(rows, e)) == Texts(rows)[p := TextOf(e)];
      UpdatesEqual(Texts(rows), p + StatusLines(rows, p), p, TextOf(e));
    } else {
      assert Texts(Ideal(rows, e)) == Texts(rows) + [TextOf(e)];
    }
  }

  /** The screen is right after every event of a pull exactly when every event is harmless. */
  lemma AlwaysRightExactly(events: seq<Event>)
    ensures (forall n :: 0 <= n <= |events| ==> RightAt(events, n))
       <==> (forall n :: 0 <= n < |events| ==> HarmlessAt(events, n))
  {
    hide RightAt, HarmlessAt;
    if forall n :: 0 <= n <= |events| ==> RightAt(events, n) {
      forall n | 0 <= n < |events| ensures HarmlessAt(events, n) { RightExactly(events, n); }
    }
    if forall n :: 0 <= n < |events| ==> HarmlessAt(events, n) {
      forall n | 0 <= n <= |events| ensures RightAt(events, n) { RightUpTo(events, n); }
    }
  }

  lemma {:induction false} RightUpTo(events: seq<Event>, n: nat)
    requires n <= |events| && forall i :: 0 <= i < |events| ==> HarmlessAt(events, i)
    ensures RightAt(events, n)
    decreases n
  {
    hide HarmlessAt, Ideal, Redraws;
    if n > 0 {
      RightUpTo(events, n - 1);
      RightExactly(events, n - 1);
    } else {
      assert events[..0] == [];
    }
  }

  // ----- Status lines only at the edges -----

  /** Status lines come before the first layer and after the last layer event only. */
  ghost predicate StatusAtEdges(events: seq<Event>, a: nat, b: nat) {
    && a <= b <= |events|
    && forall i :: 0 <= i < |events| ==> (events[i].id == "" <==> i < a || i >= b)
  }

  /** Rows of status lines, then rows of layers. */
  ghost predicate Blocks(rows: seq<Row>, a: nat) {
    a <= |rows| && forall i :: 0 <= i < |rows| ==> (rows[i].id == "" <==> i < a)
  }

  lemma {:induction false} AllLayers(rows: seq<Row>)
    requires forall i :: 0 <= i < |rows| ==> rows[i].id != ""
    ensures |Layers(rows)| == |rows|
  {
    if rows != [] { AllLayers(rows[..|rows| - 1]); }
  }

  lemma {:induction false} BlocksAfter(events: seq<Event>, a: nat, b: nat, n: nat)
    requires StatusAtEdges(events, a, b) && n <= b
    ensures Blocks(Rows(events[..n]), if n < a then n else a) && (n <= a ==> |Rows(events[..n])| == n)
    decreases n
  {
    hide Layers, Place, TextOf;
    if n > 0 {
      assert events[..n][..n - 1] == events[..n - 1] && events[..n][n - 1] == events[n - 1];
      assert events[n - 1].id == "" <==> n - 1 < a;
      BlocksAfter(events, a, b, n - 1);
    } else {
      assert events[..0] == [];
    }
  }

  /** Then every screen of the pull is right. */
  lemma EdgesAreRight(events: seq<Event>, a: nat, b: nat)
    requires StatusAtEdges(events, a, b)
    ensures forall n :: 0 <= n <= |events| ==> RightAt(events, n)
  {
    forall n | 0 <= n < |events| ensures HarmlessAt(events, n) {
      var rows, e := Rows(events[..n]), events[n];
      if Redraws(rows, e) {
        BlocksAfter(events, a, b, n);
        AllLayers(rows[Place(rows, e.id)..]);
      }
    }
    hide RightAt, HarmlessAt;
    AlwaysRightExactly(events);
  }

  // ----- What the rows hold -----

  /** The last event of a layer. */
  function Latest(events: seq<Event>, id: string): Option<Event> {
    if events == [] then None
    else if events[|events| - 1].id == id then Some(events[|events| - 1])
    else Latest(events[..|events| - 1], id)
  }

  /** Index of the first event of a layer, or the number of events. */
  function FirstSeen(events: seq<Event>, id: string): (f: nat)
    ensures f <= |events| && (f < |events| ==> events[f].id == id)
    ensures forall i :: 0 <= i < f ==> events[i].id != id
  {
    FirstIndex(events, (e: Event) => e.id == id, 0)
  }

  lemma FirstSeenSnoc(events: seq<Event>, id: string)
    requires events != []
    ensures var n := |events| - 1;
            var f := FirstSeen(events[..n], id);
            FirstSeen(events, id) == if f < n then f else if events[n].id == id then n else n + 1
  {
    hide FirstIndex;
  }

  ghost predicate OnlyAt(rows: seq<Row>, id: string) {
    forall i :: 0 <= i < |rows| && rows[i].id == id ==> i == Place(rows, id)
  }

  lemma IdealRow(rows: seq<Row>, e: Event, id: string)
    requires id != "" && OnlyAt(rows, id)
    ensures var p, next := Place(rows, id), Ideal(rows, e);
            && OnlyAt(next, id)
            && Place(next, id) == (if p < |rows| || e.id == id then p else |next|)
            && (Place(next, id) < |next| <==> p < |rows| || e.id == id)
            && (Place(next, id) < |next| ==>
                  next[Place(next, id)].text == if e.id == id then TextOf(e) else rows[p].text)
  {
    hide TextOf;
    var row := Row(e.id, TextOf(e));
    if Redraws(rows, e) {
      PlaceAfterUpdate(rows, Place(rows, e.id), row, id);
    } else {
      PlaceAfterNew(rows, row, id);
    }
    hide Place;
  }

  /** A layer that has been seen has exactly one row, and it holds the text of the layer's last event. */
  lemma {:induction false} OneRowPerLayer(events: seq<Event>, id: string)
    requires id != ""
    ensures var rows, p := Rows(events), Place(Rows(events), id);
            && OnlyAt(rows, id)
            && (p < |rows| <==> Latest(events, id).Some?)
            && (p < |rows| ==> rows[p].text == TextOf(Latest(events, id).value))
    decreases |events|
  {
    hide Ideal, TextOf, Place;
    if events != [] {
      var n := |events| - 1;
      OneRowPerLayer(events[..n], id);
      IdealRow(Rows(events[..n]), events[n], id);
    }
  }

  /** Layers are in the order in which they were first seen. */
  lemma {:induction false} FirstSeenOrder(events: seq<Event>, x: string, y: string)
    requires x != "" && y != ""
    ensures Place(Rows(events), x) < |Rows(events)| <==> FirstSeen(events, x) < |events|
    ensures Place(Rows(events), y) < |Rows(events)| <==> FirstSeen(events, y) < |events|
    ensures FirstSeen(events, y) < |events| ==>
              (Place(Rows(events), x) < Place(Rows(events), y) <==> FirstSeen(events, x) < FirstSeen(events, y))
    decreases |events|
  {
    hide Ideal, TextOf, Place, FirstSeen;
    if events != [] {
      var n := |events| - 1;
      FirstSeenOrder(events[..n], x, y);
      FirstSeenOrder(events[..n], y, x);
      FirstSeenSnoc(events, x);
      FirstSeenSnoc(events, y);
      OneRowPerLayer(events[..n], x);
      OneRowPerLayer(events[..n], y);
      IdealRow(Rows(events[..n]), events[n], x);
      IdealRow(Rows(events[..n]), events[n], y);
    }
  }

  /** With status lines at the edges only, the terminal ends up showing the rows, whatever was above. */
  lemma ScreenAtEdges(above: seq<string>, events: seq<Event>, seen: seq<Event>, a: nat, b: nat)
    requires AllShowAs(events, seen) && StatusAtEdges(seen, a, b)
    ensures Show(Below(above), Pull(true, events).0) == Below(above + Texts(Rows(seen)))
  {
    hide AllShowAs, StatusAtEdges, Show, Below, Pull, Rows, Agrees;
    ScreenIsDrawn(above, events, seen, "");
    EdgesAreRight(seen, a, b);
    assert RightAt(seen, |seen|);
    assert seen[..|seen|] == seen;
    assert Pull(true, events).0 + "" == Pull(true, events).0;
    ShowNothing(Below(above + Drawn(seen)));
  }

  /** A status line between two updates of a layer: the second update overwrites the status line. */
  lemma StatusBetweenUpdates()
    ensures var events := [Event("a", "x", ""), Event("", "s", ""), Event("a", "y", "")];
            && Texts(Rows(events)) == ["a: y", "s"] && Drawn(events) == ["a: x", "a: y"]
  {
    var x, s, y := Event("a", "x", ""), Event("", "s", ""), Event("a", "y", "");
    var r2 := [Row("a", "a: x"), Row("", "s")];
    ShortTexts();
    OneStatusLine();
    hide TextOf, Layers, StatusLines, Place;
    assert [x, s, y][..2] == [x, s] && [x, s][..1] == [x] && [x][..0] == [];
    PlaceIs([], "a", 0);
    assert Rows([x]) == [Row("a", "a: x")] && Drawn([x]) == ["a: x"];
    assert Rows([x, s]) == r2 && Drawn([x, s]) == ["a: x", "s"];
    assert Rows([x, s, y]) == r2[0 := Row("a", "a: y")];
  }

  lemma ShortTexts()
    ensures TextOf(Event("a", "x", "")) == "a: x" && TextOf(Event("", "s", "")) == "s"
    ensures TextOf(Event("a", "y", "")) == "a: y"
  {
    assert "a" + ": " + "x" + "" == "a: x" && "s" + "" == "s" && "a" + ": " + "y" + "" == "a: y";
  }

  lemma OneStatusLine()
    ensures var r2 := [Row("a", "a: x"), Row("", "s")]; Place(r2, "a") == 0 && StatusLines(r2, 0) == 1
  {
    var r2 := [Row("a", "a: x"), Row("", "s")];
    PlaceIs(r2, "a", 0);
    assert r2[0..] == r2 && r2[..1] == [r2[0]] && [r2[0]][..0] == [];
    assert Layers(r2) == ["a: x"];
  }

  function AllTexts(events: seq<Event>): (t: seq<string>)
    ensures |t| == |events| && forall i :: 0 <= i < |t| ==> t[i] == TextOf(events[i])
  {
    seq(|events|, i requires 0 <= i < |events| => TextOf(events[i]))
  }

  /** Where output is not a terminal, every event is a plain line. */
  lemma {:induction false} PlainOutput(events: seq<Event>)
    ensures Pull(false, events).0 == Ended(AllTexts(events))
    decreases |events|
  {
    hide TextOf;
    if events == [] {
      assert AllTexts(events) == [];
    } else {
      var n := |events| - 1;
      PlainOutput(events[..n]);
      var before, text := AllTexts(events[..n]), TextOf(events[n]);
      assert AllTexts(events) == before + [text];
      EndedSnoc(before, text);
      Assoc(Ended(before), text, "\n");
    }
  }
}
