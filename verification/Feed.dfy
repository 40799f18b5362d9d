/** The incremental event feed: the client's event window (dashboard/board.js) and the box it is
    painted into (dashboard/panels/live.js). */
module Feed {
  import opened Folds
  import opened Wrappers

  // EVENT_WINDOW_CAP and EVENT_RENDER_CAP
  const CAP := 400
  const EVENT_KINDS := {"tool", "file", "thinking", "error", "lifecycle", "user", "harness"}

  /** number is the event's seq. */
  datatype Event = Event(number: int, kind: string, detail: string)

  /** board.events: what the server says about the ring, and the rows attached by the client. */
  datatype Ring = Ring(connected: bool, reason: string, retained: int, events: seq<Event>)

  datatype Board = NoBoard | Board(ring: Option<Ring>)

  /** The signature a painting was made under: the kinds shown and the connection. */
  datatype Sig = Sig(shown: set<string>, connected: Option<bool>, reason: Option<string>)

  datatype Row = Row(event: Event, isNew: bool)
  datatype Note = FeedOff | Disconnected(reason: string) | AllHidden | NothingYet
  datatype Box = Padded(note: Note) | Rows(rows: seq<Row>)

  datatype FeedState = FeedState(
    board: Board, window: seq<Event>, cursor: int,
    hidden: set<string>, renderedSeq: int, renderedSig: Option<Sig>, box: Box)

  const INITIAL := FeedState(NoBoard, [], 0, {}, -1, None, Rows([]))

  // ----- choosing rows -----

  predicate Visible(e: Event, shown: set<string>) { e.kind !in EVENT_KINDS || e.kind in shown }

  function VisibleIn(shown: set<string>): Event -> seq<Event> { (e: Event) => if Visible(e, shown) then [e] else [] }
  function AtMost(c: int): Event -> seq<Event> { (e: Event) => if e.number <= c then [e] else [] }
  function Above(c: int): Event -> seq<Event> { (e: Event) => if e.number > c then [e] else [] }

  /** The rows of a window under a filter; an unknown kind is always shown. */
  function Pick(window: seq<Event>, shown: set<string>): seq<Event> { FlatMap(window, VisibleIn(shown)) }
  function UpTo(rows: seq<Event>, c: int): seq<Event> { FlatMap(rows, AtMost(c)) }
  function Fresh(rows: seq<Event>, c: int): seq<Event> { FlatMap(rows, Above(c)) }

  function Newest<T>(s: seq<T>, n: nat): seq<T> { if |s| <= n then s else s[|s| - n..] }

  function ToRows(events: seq<Event>, isNew: bool): seq<Row> {
    seq(|events|, i requires 0 <= i < |events| => Row(events[i], isNew))
  }
  function EventsOf(rows: seq<Row>): seq<Event> {
    seq(|rows|, i requires 0 <= i < |rows| => rows[i].event)
  }

  // ----- paintFeed -----

  function Shown(hidden: set<string>): set<string> { EVENT_KINDS - hidden }

  function SigOf(s: FeedState): Sig
    requires s.board.Board?
  {
    match s.board.ring
    case None => Sig(Shown(s.hidden), None, None)
    case Some(r) => Sig(Shown(s.hidden), Some(r.connected), Some(r.reason))
  }

  /** The rows a full redraw would show. */
  function RowsShown(s: FeedState): seq<Event>
    requires s.board.Board? && s.board.ring.Some?
  {
    Pick(s.board.ring.value.events, Shown(s.hidden))
  }

  /** The note shown in place of rows, if any. */
  function NoteOf(s: FeedState): Option<Note>
    requires s.board.Board?
  {
    match s.board.ring
    case None => Some(FeedOff)
    case Some(r) =>
      if !r.connected then Some(Disconnected(r.reason))
      else if |RowsShown(s)| > 0 then None
      else if r.retained != 0 then Some(AllHidden) else Some(NothingYet)
  }

  /** Something in the box matches the selector ".null": a note, or a row of that kind. */
  predicate HasNull(box: Box) { box.Padded? || exists r <- box.rows :: r.event.kind == "null" }

  predicate Wrapped(s: FeedState, first: Event) { first.number > s.renderedSeq + 1 && s.renderedSeq != -1 }

  predicate Stale(s: FeedState)
    requires s.board.Board? && NoteOf(s).None?
  {
    s.renderedSig != Some(SigOf(s)) || Wrapped(s, RowsShown(s)[0]) || HasNull(s.box)
  }

  function Last(rows: seq<Event>): int
    requires |rows| > 0
  {
    rows[|rows| - 1].number
  }

  /** The rebuild: the whole filtered window. */
  function Redraw(s: FeedState): FeedState
    requires s.board.Board? && NoteOf(s).None?
  {
    s.(box := Rows(ToRows(RowsShown(s), false)), renderedSeq := Last(RowsShown(s)), renderedSig := Some(SigOf(s)))
  }

  /** The append: rows above the watermark, trimmed from the top. */
  function AppendNewer(s: FeedState): FeedState
    requires s.board.Board? && s.board.ring.Some? && s.box.Rows?
  {
    var newer := Fresh(RowsShown(s), s.renderedSeq);
    if |newer| == 0 then s
    else s.(box := Rows(Newest(s.box.rows + ToRows(newer, true), CAP)), renderedSeq := Last(newer))
  }

  function Paint(s: FeedState): FeedState {
    if s.board.NoBoard? then s
    else if NoteOf(s).Some? then s.(box := Padded(NoteOf(s).value), renderedSeq := -1, renderedSig := Some(SigOf(s)))
    else if Stale(s) then Redraw(s)
    else AppendNewer(s)
  }

  // ----- the client's steps -----

  datatype Input =
    | BoardFrame(meta: Option<Ring>, painted: bool)
    | RingPatch(meta: Option<Ring>, painted: bool)
    | OtherPatch(painted: bool)
    | EventsFrame(batch: seq<Event>, serverCursor: Option<int>, painted: bool)
    | ErrorFrame(painted: bool)
    | ToggleKind(kind: string, painted: bool)

  function Attach(meta: Option<Ring>, window: seq<Event>): Option<Ring> {
    if meta.Some? then Some(meta.value.(events := window)) else None
  }

  function Advance(cursor: int, batch: seq<Event>, serverCursor: Option<int>): int
    requires |batch| > 0
  {
    var c := Last(batch);
    if serverCursor.Some? && serverCursor.value > c then serverCursor.value else c
  }

  /** What a step does before painting. */
  function Receive(s: FeedState, input: Input): FeedState {
    match input
    case BoardFrame(meta, _) => s.(board := Board(Attach(meta, s.window)))
    case RingPatch(meta, _) => if s.board.NoBoard? then s else s.(board := Board(Attach(meta, s.window)))
    case OtherPatch(_) => s
    case ErrorFrame(_) => s
    case ToggleKind(kind, _) =>
      if kind !in EVENT_KINDS then s
      else s.(hidden := if kind in s.hidden then s.hidden - {kind} else s.hidden + {kind})
    case EventsFrame(batch, serverCursor, _) =>
      if |batch| == 0 then s
      else
        var window := Newest(s.window + batch, CAP);
        var board := if s.board.NoBoard? then NoBoard else Board(Attach(s.board.ring, window));
        s.(window := window, cursor := Advance(s.cursor, batch, serverCursor), board := board)
  }

  /** Whether the step ends in paintFeed; a paint that fails is a step that does not. */
  predicate Paints(s: FeedState, input: Input) {
    input.painted && (input.RingPatch? || input.OtherPatch? ==> s.board.Board?) && (input.EventsFrame? ==> |input.batch| > 0)
  }

  function Step(s: FeedState, input: Input): FeedState {
    var received := Receive(s, input);
    if Paints(s, input) then Paint(received) else received
  }

  function Run(inputs: seq<Input>): FeedState {
    if |inputs| == 0 then INITIAL else Step(Run(inputs[..|inputs| - 1]), inputs[|inputs| - 1])
  }

  ghost predicate Increasing(rows: seq<Event>) { forall i, j :: 0 <= i < j < |rows| ==> rows[i].number < rows[j].number }

  /** What the server promises of a batch: in order, and above the client's cursor. */
  ghost predicate InOrder(s: FeedState, input: Input) {
    input.EventsFrame? ==> Increasing(input.batch) && forall e <- input.batch :: e.number > s.cursor
  }

  ghost predicate Admissible(inputs: seq<Input>) {
    |inputs| == 0
    || (Admissible(inputs[..|inputs| - 1]) && InOrder(Run(inputs[..|inputs| - 1]), inputs[|inputs| - 1]))
  }

  // ----- the invariant -----

  ghost predicate Suffix<T>(a: seq<T>, b: seq<T>) { |a| <= |b| && b[|b| - |a|..] == a }

  ghost predicate WindowOk(s: FeedState) {
    && Increasing(s.window) && |s.window| <= CAP && 0 <= s.cursor
    && (forall e <- s.window :: 0 < e.number <= s.cursor)
    && (s.board.Board? && s.board.ring.Some? ==> s.board.ring.value.events == s.window)
  }

  /** The box holds rows in order whose end is the window as it was filtered and painted. */
  ghost predicate Painted(rows: seq<Event>, window: seq<Event>, shown: set<string>, renderedSeq: int, cursor: int) {
    && 0 < |rows| <= CAP && Increasing(rows)
    && Last(rows) == renderedSeq && 0 < renderedSeq <= cursor
    && Suffix(UpTo(Pick(window, shown), renderedSeq), rows)
  }

  ghost predicate BoxOk(s: FeedState) {
    match s.box
    case Padded(_) => s.renderedSeq == -1
    case Rows(rows) =>
      if s.renderedSig.None? then rows == [] && s.renderedSeq == -1
      else Painted(EventsOf(rows), s.window, s.renderedSig.value.shown, s.renderedSeq, s.cursor)
  }

  ghost predicate Inv(s: FeedState) { WindowOk(s) && BoxOk(s) }

  /** The box agrees with a full redraw: a note where a redraw shows a note; otherwise at most CAP
      rows in strictly increasing order that end with exactly the rows of a redraw. */
  ghost predicate Agrees(s: FeedState) {
    s.board.Board? ==>
      match NoteOf(s)
      case Some(note) => s.box == Padded(note)
      case None =>
        && s.box.Rows? && |s.box.rows| <= CAP && Increasing(EventsOf(s.box.rows))
        && Suffix(RowsShown(s), EventsOf(s.box.rows))
  }

  // ----- lists -----

  lemma SuffixDrop<T>(a: seq<T>, b: seq<T>, c: seq<T>)
    requires Suffix(a + b, c)
    ensures Suffix(b, c)
  {
    assert (a + b)[|a|..] == b;
    assert c[|c| - |b|..] == c[|c| - |a + b|..][|a|..];
  }

  lemma SuffixAppend<T>(a: seq<T>, c: seq<T>, b: seq<T>)
    requires Suffix(a, c)
    ensures Suffix(a + b, c + b)
  {
    assert (c + b)[|c + b| - |a + b|..] == c[|c| - |a|..] + b;
  }

  /** Trimming from the top to a length no shorter than the suffix keeps it. */
  lemma SuffixNewest<T>(a: seq<T>, c: seq<T>, n: nat)
    requires Suffix(a, c) && |a| <= n
    ensures Suffix(a, Newest(c, n))
  {
    if |c| > n {
      assert c[|c| - n..][n - |a|..] == c[|c| - |a|..];
    }
  }

  lemma NewestSplit<T>(s: seq<T>, n: nat) returns (dropped: seq<T>)
    ensures s == dropped + Newest(s, n) && |Newest(s, n)| <= n
  {
    dropped := if |s| <= n then [] else s[..|s| - n];
  }

  lemma IncreasingPart(a: seq<Event>, b: seq<Event>)
    requires Increasing(a + b)
    ensures Increasing(a) && Increasing(b)
    ensures forall x, y :: x in a && y in b ==> x.number < y.number
  {
    assert forall i :: 0 <= i < |a| ==> (a + b)[i] == a[i];
    assert forall i :: 0 <= i < |b| ==> (a + b)[|a| + i] == b[i];
  }

  lemma IncreasingAppend(a: seq<Event>, b: seq<Event>)
    requires Increasing(a) && Increasing(b) && forall x, y :: x in a && y in b ==> x.number < y.number
    ensures Increasing(a + b)
  {
    forall i, j | 0 <= i < j < |a + b| ensures (a + b)[i].number < (a + b)[j].number {
      if i < |a| <= j {
        assert a[i] in a && b[j - |a|] in b;
      }
    }
  }

  /** Choosing rows one by one keeps order and takes nothing new. */
  lemma {:induction false} ChosenIncreasing(s: seq<Event>, f: Event -> seq<Event>)
    requires Increasing(s) && forall e :: f(e) == [e] || f(e) == []
    ensures Increasing(FlatMap(s, f)) && |FlatMap(s, f)| <= |s|
    ensures forall e <- FlatMap(s, f) :: e in s && f(e) == [e]
  {
    if |s| > 0 {
      var front, e := s[..|s| - 1], s[|s| - 1];
      assert s == front + [e];
      IncreasingPart(front, [e]);
      ChosenIncreasing(front, f);
      assert e in [e];
      IncreasingAppend(FlatMap(front, f), f(e));
    }
  }

  /** In an increasing list the rows above c follow those up to c. */
  lemma {:induction false} SplitAt(s: seq<Event>, c: int)
    requires Increasing(s)
    ensures s == UpTo(s, c) + Fresh(s, c)
  {
    if |s| > 0 {
      var front, e := s[..|s| - 1], s[|s| - 1];
      assert s == front + [e];
      IncreasingPart(front, [e]);
      SplitAt(front, c);
      if e.number <= c {
        assert e in [e];
        FreshEmpty(front, c);
      }
      SplitStep(UpTo(front, c), Fresh(front, c), e, c);
    }
  }

  lemma SplitStep(low: seq<Event>, high: seq<Event>, e: Event, c: int)
    requires e.number <= c ==> high == []
    ensures low + AtMost(c)(e) + (high + Above(c)(e)) == low + high + [e]
  {
  }

  lemma {:induction false} FreshEmpty(s: seq<Event>, c: int)
    requires forall e <- s :: e.number <= c
    ensures Fresh(s, c) == []
  {
    if |s| > 0 {
      FreshEmpty(s[..|s| - 1], c);
    }
  }

  lemma {:induction false} UpToEmpty(s: seq<Event>, c: int)
    requires forall e <- s :: e.number > c
    ensures UpTo(s, c) == []
  {
    if |s| > 0 {
      UpToEmpty(s[..|s| - 1], c);
    }
  }

  // ----- one paint -----

  lemma RowsRoundTrip(rows: seq<Row>, more: seq<Event>, isNew: bool, n: nat)
    ensures EventsOf(ToRows(more, isNew)) == more
    ensures EventsOf(Newest(rows + ToRows(more, isNew), n)) == Newest(EventsOf(rows) + more, n)
  {
    assert EventsOf(rows + ToRows(more, isNew)) == EventsOf(rows) + more;
    NewestOfRows(rows + ToRows(more, isNew), n);
  }

  lemma NewestOfRows(rows: seq<Row>, n: nat)
    ensures EventsOf(Newest(rows, n)) == Newest(EventsOf(rows), n)
  {
  }

  lemma AllUpToLast(rows: seq<Event>)
    requires Increasing(rows) && |rows| > 0
    ensures UpTo(rows, Last(rows)) == rows
  {
    SplitAt(rows, Last(rows));
    FreshEmpty(rows, Last(rows));
  }

  lemma PickOk(window: seq<Event>, shown: set<string>)
    requires Increasing(window)
    ensures Increasing(Pick(window, shown)) && |Pick(window, shown)| <= |window|
    ensures forall e <- Pick(window, shown) :: e in window
  {
    ChosenIncreasing(window, VisibleIn(shown));
  }

  /** A full redraw establishes what the invariant says of a painted box. */
  lemma Redrawn(window: seq<Event>, shown: set<string>, cursor: int)
    requires Increasing(window) && |window| <= CAP && forall e <- window :: 0 < e.number <= cursor
    requires |Pick(window, shown)| > 0
    ensures
      var rows := Pick(window, shown);
      Painted(rows, window, shown, Last(rows), cursor) && Suffix(rows, rows)
  {
    var rows := Pick(window, shown);
    PickOk(window, shown);
    AllUpToLast(rows);
    assert rows[|rows| - 1] in rows;
  }

  /** Appending what is newer and trimming from the top keeps it, and shows the whole window again. */
  lemma Appended(rows: seq<Event>, window: seq<Event>, shown: set<string>, renderedSeq: int, cursor: int)
    requires Painted(rows, window, shown, renderedSeq, cursor)
    requires Increasing(window) && |window| <= CAP && forall e <- window :: 0 < e.number <= cursor
    ensures
      var newer := Fresh(Pick(window, shown), renderedSeq);
      var after := Newest(rows + newer, CAP);
      && Suffix(Pick(window, shown), after)
      && (|newer| == 0 ==> after == rows)
      && (|newer| > 0 ==> Painted(after, window, shown, Last(newer), cursor))
  {
    var picked := Pick(window, shown);
    var newer := Fresh(picked, renderedSeq);
    PickOk(window, shown);
    SplitAt(picked, renderedSeq);
    SuffixAppend(UpTo(picked, renderedSeq), rows, newer);
    SuffixNewest(picked, rows + newer, CAP);
    if |newer| == 0 {
      assert rows + newer == rows;
    } else {
      AppendedOrder(rows, picked, renderedSeq);
      var dropped := NewestSplit(rows + newer, CAP);
      IncreasingPart(dropped, Newest(rows + newer, CAP));
      LastOfAppend(UpTo(picked, renderedSeq), newer);
      LastOfAppend(dropped, Newest(rows + newer, CAP));
      LastOfAppend(rows, newer);
      AllUpToLast(picked);
      assert picked[|picked| - 1] in picked;
    }
  }

  lemma LastOfAppend(a: seq<Event>, b: seq<Event>)
    ensures |b| > 0 ==> Last(a + b) == Last(b)
  {
  }

  lemma AppendedOrder(rows: seq<Event>, picked: seq<Event>, renderedSeq: int)
    requires Increasing(rows) && |rows| > 0 && Last(rows) == renderedSeq && Increasing(picked)
    ensures Increasing(rows + Fresh(picked, renderedSeq))
  {
    ChosenIncreasing(picked, Above(renderedSeq));
    IncreasingAppend(rows, Fresh(picked, renderedSeq));
  }

  /** A paint keeps the invariant and leaves the box as a full redraw would have its end. */
  lemma PaintAgrees(s: FeedState)
    requires Inv(s)
    ensures Inv(Paint(s)) && Agrees(Paint(s))
  {
    if s.board.Board? && NoteOf(s).None? {
      var shown := Shown(s.hidden);
      if Stale(s) {
        Redrawn(s.window, shown, s.cursor);
        PickOk(s.window, shown);
        RowsRoundTrip([], RowsShown(s), false, CAP);
      } else {
        Appended(EventsOf(s.box.rows), s.window, shown, s.renderedSeq, s.cursor);
        RowsRoundTrip(s.box.rows, Fresh(RowsShown(s), s.renderedSeq), true, CAP);
      }
    }
  }

  // ----- one step -----

  /** New events move the window and leave the painted part of it at the end of the box. */
  lemma WindowMoves(s: FeedState, batch: seq<Event>, cursor: int)
    requires Inv(s) && |batch| > 0 && Increasing(batch) && (forall e <- batch :: e.number > s.cursor) && cursor >= Last(batch)
    ensures
      var window := Newest(s.window + batch, CAP);
      && Increasing(window) && |window| <= CAP
      && (forall e <- window :: 0 < e.number <= cursor)
      && cursor > s.cursor
      && (s.box.Rows? && s.renderedSig.Some? ==>
            Painted(EventsOf(s.box.rows), window, s.renderedSig.value.shown, s.renderedSeq, cursor))
  {
    var window := Newest(s.window + batch, CAP);
    IncreasingAppend(s.window, batch);
    var dropped := NewestSplit(s.window + batch, CAP);
    IncreasingPart(dropped, window);
    assert batch[|batch| - 1] in batch;
    assert forall e <- batch :: e.number <= Last(batch);
    forall e | e in window ensures 0 < e.number <= cursor {
      assert e in dropped + window;
      assert e in s.window || e in batch;
    }
    if s.box.Rows? && s.renderedSig.Some? {
      PaintedPartMoves(s.window, batch, dropped, window, s.renderedSig.value.shown, s.renderedSeq);
      SuffixDrop(UpTo(Pick(dropped, s.renderedSig.value.shown), s.renderedSeq),
                 UpTo(Pick(window, s.renderedSig.value.shown), s.renderedSeq), EventsOf(s.box.rows));
    }
  }

  lemma PaintedPartMoves(before: seq<Event>, batch: seq<Event>, dropped: seq<Event>, window: seq<Event>, shown: set<string>, c: int)
    requires before + batch == dropped + window && Increasing(batch) && forall e <- batch :: e.number > c
    ensures UpTo(Pick(before, shown), c) == UpTo(Pick(dropped, shown), c) + UpTo(Pick(window, shown), c)
  {
    FlatMapAppend(before, batch, VisibleIn(shown));
    FlatMapAppend(dropped, window, VisibleIn(shown));
    FlatMapAppend(Pick(before, shown), Pick(batch, shown), AtMost(c));
    FlatMapAppend(Pick(dropped, shown), Pick(window, shown), AtMost(c));
    PickOk(batch, shown);
    UpToEmpty(Pick(batch, shown), c);
  }

  lemma ReceiveKeepsInv(s: FeedState, input: Input)
    requires Inv(s) && InOrder(s, input)
    ensures Inv(Receive(s, input))
  {
    if input.EventsFrame? && |input.batch| > 0 {
      WindowMoves(s, input.batch, Advance(s.cursor, input.batch, input.serverCursor));
    }
  }

  lemma StepKeepsInv(s: FeedState, input: Input)
    requires Inv(s) && InOrder(s, input)
    ensures Inv(Step(s, input)) && (Paints(s, input) ==> Agrees(Step(s, input)))
  {
    ReceiveKeepsInv(s, input);
    PaintAgrees(Receive(s, input));
  }

  /** In every run the window keeps its order and cap, and after every step that paints the box
      agrees with a full redraw. */
  lemma {:induction false} RunAgrees(inputs: seq<Input>)
    requires Admissible(inputs)
    ensures Inv(Run(inputs))
    ensures |inputs| > 0 && Paints(Run(inputs[..|inputs| - 1]), inputs[|inputs| - 1]) ==> Agrees(Run(inputs))
  {
    if |inputs| > 0 {
      RunAgrees(inputs[..|inputs| - 1]);
      StepKeepsInv(Run(inputs[..|inputs| - 1]), inputs[|inputs| - 1]);
    }
  }

  /** A toggle shows or hides exactly the rows of its kind, and two toggles cancel. */
  lemma ToggleFlips(s: FeedState, kind: string, e: Event)
    requires kind in EVENT_KINDS
    ensures
      var once := Receive(s, ToggleKind(kind, false));
      && (Visible(e, Shown(once.hidden)) <==> if e.kind == kind then !Visible(e, Shown(s.hidden)) else Visible(e, Shown(s.hidden)))
      && Receive(once, ToggleKind(kind, false)) == s
  {
    var once := Receive(s, ToggleKind(kind, false));
    if kind in s.hidden {
      assert once.hidden + {kind} == s.hidden;
    } else {
      assert once.hidden - {kind} == s.hidden;
    }
  }

  // ----- what the operator sees after a run -----

  /** How often a filter was toggled. */
  function Toggles(inputs: seq<Input>, kind: string): nat {
    if |inputs| == 0 then 0
    else
      var last := inputs[|inputs| - 1];
      Toggles(inputs[..|inputs| - 1], kind) + if last.ToggleKind? && last.kind == kind then 1 else 0
  }

  /** All events delivered, in order of arrival. */
  function Delivered(inputs: seq<Input>): seq<Event> {
    if |inputs| == 0 then []
    else
      var last := inputs[|inputs| - 1];
      Delivered(inputs[..|inputs| - 1]) + if last.EventsFrame? then last.batch else []
  }

  lemma PaintKeeps(s: FeedState)
    ensures Paint(s).window == s.window && Paint(s).hidden == s.hidden && Paint(s).board == s.board
  {
  }

  /** A kind is hidden when its filter was toggled an odd number of times. */
  lemma {:induction false} HiddenIs(inputs: seq<Input>, kind: string)
    ensures kind in Run(inputs).hidden <==>
      kind in {"tool", "file", "thinking", "error", "lifecycle", "user", "harness"} && Toggles(inputs, kind) % 2 == 1
  {
    if |inputs| > 0 {
      HiddenIs(inputs[..|inputs| - 1], kind);
      PaintKeeps(Receive(Run(inputs[..|inputs| - 1]), inputs[|inputs| - 1]));
    }
  }

  /** Only an events frame moves the window, and it moves it by its batch. */
  lemma StepMovesWindow(s: FeedState, input: Input)
    ensures
      var after := Step(s, input);
      if input.EventsFrame? && |input.batch| > 0 then
        after.window == Newest(s.window + input.batch, CAP) && after.cursor == Advance(s.cursor, input.batch, input.serverCursor)
      else after.window == s.window && after.cursor == s.cursor
  {
    PaintKeeps(Receive(s, input));
  }

  /** The window is the newest 400 of all events delivered. */
  lemma {:induction false} WindowOfRun(inputs: seq<Input>)
    ensures
      var all, window := Delivered(inputs), Run(inputs).window;
      |window| == (if |all| < 400 then |all| else 400) && window == all[|all| - |window|..]
  {
    if |inputs| > 0 {
      var before, input := inputs[..|inputs| - 1], inputs[|inputs| - 1];
      WindowOfRun(before);
      StepMovesWindow(Run(before), input);
      if input.EventsFrame? && |input.batch| > 0 {
        NewestOfMore(Delivered(before), Run(before).window, input.batch);
      } else {
        assert Delivered(inputs) == Delivered(before);
      }
    }
  }

  lemma NewestOfMore(all: seq<Event>, window: seq<Event>, batch: seq<Event>)
    requires |window| == (if |all| < 400 then |all| else 400) && window == all[|all| - |window|..]
    ensures
      var more, after := all + batch, Newest(window + batch, CAP);
      |after| == (if |more| < 400 then |more| else 400) && after == more[|more| - |after|..]
  {
    var more := all + batch;
    assert window + batch == more[|all| - |window|..];
  }

  lemma {:induction false} PickMembers(window: seq<Event>, shown: set<string>, e: Event)
    ensures e in Pick(window, shown) <==> e in window && Visible(e, shown)
  {
    if |window| > 0 {
      PickMembers(window[..|window| - 1], shown, e);
      LastOrEarlier(window);
    }
  }

  /** What is in the box, given the rows that should close it. */
  ghost predicate Closes(s: FeedState, closing: seq<Event>)
    requires s.board.Board?
  {
    match s.board.ring
    case None => s.box == Padded(FeedOff)
    case Some(r) =>
      if !r.connected then s.box == Padded(Disconnected(r.reason))
      else if closing == [] then s.box == Padded(if r.retained != 0 then AllHidden else NothingYet)
      else
        && s.box.Rows? && |closing| <= |s.box.rows| <= 400 && Increasing(EventsOf(s.box.rows))
        && EventsOf(s.box.rows)[|s.box.rows| - |closing|..] == closing
  }

  /** After a step that paints, a connected feed closes with the events of the window, in order, whose kind
      is unknown or whose filter was toggled an even number of times; with a note when there are none, or
      when the feed is off or disconnected. Without any toggle it closes with the whole window. */
  lemma BoxOfRun(inputs: seq<Input>) returns (closing: seq<Event>)
    requires Admissible(inputs) && |inputs| > 0 && Paints(Run(inputs[..|inputs| - 1]), inputs[|inputs| - 1])
    requires Run(inputs).board.Board?
    ensures Increasing(closing) && Closes(Run(inputs), closing)
    ensures forall e :: e in closing <==>
      e in Run(inputs).window
      && (e.kind !in {"tool", "file", "thinking", "error", "lifecycle", "user", "harness"} || Toggles(inputs, e.kind) % 2 == 0)
    ensures (forall kind :: Toggles(inputs, kind) == 0) ==> closing == Run(inputs).window
  {
    closing := Pick(Run(inputs).window, Shown(Run(inputs).hidden));
    RunAgrees(inputs);
    AgreesCloses(Run(inputs));
    forall e ensures e in closing <==>
      e in Run(inputs).window
      && (e.kind !in {"tool", "file", "thinking", "error", "lifecycle", "user", "harness"} || Toggles(inputs, e.kind) % 2 == 0)
    {
      ClosingIs(inputs, e);
    }
    if forall kind :: Toggles(inputs, kind) == 0 {
      NothingHidden(inputs);
    }
  }

  lemma ClosingIs(inputs: seq<Input>, e: Event)
    ensures e in Pick(Run(inputs).window, Shown(Run(inputs).hidden)) <==>
      e in Run(inputs).window
      && (e.kind !in {"tool", "file", "thinking", "error", "lifecycle", "user", "harness"} || Toggles(inputs, e.kind) % 2 == 0)
  {
    PickMembers(Run(inputs).window, Shown(Run(inputs).hidden), e);
    HiddenIs(inputs, e.kind);
  }

  lemma NothingHidden(inputs: seq<Input>)
    requires forall kind :: Toggles(inputs, kind) == 0
    ensures Pick(Run(inputs).window, Shown(Run(inputs).hidden)) == Run(inputs).window
  {
    forall e | e in Run(inputs).window ensures Visible(e, Shown(Run(inputs).hidden)) {
      HiddenIs(inputs, e.kind);
    }
    PickAll(Run(inputs).window, Shown(Run(inputs).hidden));
  }

  /** Agreement with a redraw, said of the rows picked. */
  lemma AgreesCloses(s: FeedState)
    requires Inv(s) && Agrees(s) && s.board.Board?
    ensures Increasing(Pick(s.window, Shown(s.hidden))) && Closes(s, Pick(s.window, Shown(s.hidden)))
  {
    PickOk(s.window, Shown(s.hidden));
    assert s.box.Rows? ==> |EventsOf(s.box.rows)| == |s.box.rows|;
  }

  lemma {:induction false} PickAll(window: seq<Event>, shown: set<string>)
    requires forall e <- window :: Visible(e, shown)
    ensures Pick(window, shown) == window
  {
    if |window| > 0 {
      var front, e := window[..|window| - 1], window[|window| - 1];
      assert window == front + [e] && e in window;
      assert forall x <- front :: x in window;
      PickAll(front, shown);
    }
  }

  /** A redraw marks no row as new. An append marks exactly the rows it adds and leaves those it keeps as they were. */
  lemma RowsMarked(s: FeedState, k: nat)
    requires s.board.Board? && NoteOf(s).None? && Paint(s).box.Rows? && k < |Paint(s).box.rows|
    ensures
      var rows := Paint(s).box.rows;
      var row := rows[|rows| - 1 - k];
      if Stale(s) then !row.isNew
      else
        var added := |Fresh(RowsShown(s), s.renderedSeq)|;
        s.box.Rows? && if k < added then row.isNew else k - added < |s.box.rows| && row == s.box.rows[|s.box.rows| - 1 - (k - added)]
  {
  }

  // ----- a box the morph swapped for an empty one -----

  /** Appending to an empty box shows the newer rows alone. */
  lemma AppendToEmpty(s: FeedState)
    requires s.board.Board? && s.board.ring.Some? && s.box == Rows([])
    requires |Fresh(RowsShown(s), s.renderedSeq)| <= CAP
    ensures AppendNewer(s).board == s.board && AppendNewer(s).hidden == s.hidden && AppendNewer(s).box.Rows?
    ensures EventsOf(AppendNewer(s).box.rows) == Fresh(RowsShown(s), s.renderedSeq)
  {
    var newer := Fresh(RowsShown(s), s.renderedSeq);
    RowsRoundTrip([], newer, true, CAP);
    assert EventsOf([]) + newer == newer && EventsOf([]) == [];
  }

  /** For a box of few rows in order agreement is about its end alone. */
  lemma AgreesAtEnd(s: FeedState, rows: seq<Event>)
    requires s.board.Board? && NoteOf(s).None? && s.box.Rows? && EventsOf(s.box.rows) == rows
    requires Increasing(rows) && |rows| <= |RowsShown(s)| <= CAP
    ensures Agrees(s) <==> rows == RowsShown(s)
  {
    SuffixOfShorter(RowsShown(s), rows);
  }

  lemma StalePaint(s: FeedState)
    requires WindowOk(s) && s.board.Board? && NoteOf(s).None? && Stale(s)
    ensures Agrees(Paint(s))
  {
    Redrawn(s.window, Shown(s.hidden), s.cursor);
    PickOk(s.window, Shown(s.hidden));
    RowsRoundTrip([], RowsShown(s), false, CAP);
  }

  lemma AppendedOnly(s: FeedState)
    requires WindowOk(s) && s.board.Board? && NoteOf(s).None? && s.box == Rows([])
    ensures Agrees(AppendNewer(s)) <==> RowsShown(s)[0].number > s.renderedSeq
  {
    var rows := RowsShown(s);
    PickOk(s.window, Shown(s.hidden));
    AllNewer(rows, s.renderedSeq);
    AppendToEmpty(s);
    AgreesAtEnd(AppendNewer(s), Fresh(rows, s.renderedSeq));
  }

  /** Every position after an inserted panel is matched with another panel, so the box may be
      replaced by an empty one while the panel's own state stays. The next paint then agrees with a
      full redraw exactly when it is stale anyway or every row is still to be painted. */
  lemma SwappedBoxAgrees(s: FeedState)
    requires Inv(s) && s.board.Board? && NoteOf(s).None?
    ensures
      var swapped := s.(box := Rows([]));
      Agrees(Paint(swapped)) <==> Stale(swapped) || RowsShown(swapped)[0].number > s.renderedSeq
  {
    var swapped := s.(box := Rows([]));
    if Stale(swapped) {
      StalePaint(swapped);
    } else {
      AppendedOnly(swapped);
    }
  }

  lemma SuffixOfShorter<T>(a: seq<T>, b: seq<T>)
    requires |b| <= |a|
    ensures Suffix(a, b) <==> a == b
  {
  }

  /** Of rows in order all are above c exactly when the first is. */
  lemma AllNewer(rows: seq<Event>, c: int)
    requires Increasing(rows) && |rows| > 0
    ensures |Fresh(rows, c)| <= |rows| && (Fresh(rows, c) == rows <==> rows[0].number > c)
    ensures Increasing(Fresh(rows, c))
  {
    SplitAt(rows, c);
    ChosenIncreasing(rows, Above(c));
    if rows[0].number > c {
      UpToEmpty(rows, c);
    } else {
      assert rows[0] !in Fresh(rows, c);
    }
  }

  // ----- the client -----

  /** The module state of board.js and live.js, and the children of #sc-events. */
  class Dashboard {
    var board: Board
    var eventRows: seq<Event>
    var eventCursor: int
    var hidden: set<string>
    var renderedSeq: int
    var renderedSig: Option<Sig>
    var box: Box

    function State(): FeedState
      reads this
    {
      FeedState(board, eventRows, eventCursor, hidden, renderedSeq, renderedSig, box)
    }

    constructor ()
      ensures State() == INITIAL
    {
      board, eventRows, eventCursor := NoBoard, [], 0;
      hidden, renderedSeq, renderedSig, box := {}, -1, None, Rows([]);
    }

    method OnBoard(meta: Option<Ring>, painted: bool)
      modifies this
      ensures State() == Step(old(State()), BoardFrame(meta, painted))
    {
      board := Board(Attach(meta, eventRows));
      if painted {
        PaintFeed();
      }
    }

    method OnRingPatch(meta: Option<Ring>, painted: bool)
      modifies this
      ensures State() == Step(old(State()), RingPatch(meta, painted))
    {
      if board.NoBoard? {
        return;
      }
      board := Board(Attach(meta, eventRows));
      if painted {
        PaintFeed();
      }
    }

    method OnOtherPatch(painted: bool)
      modifies this
      ensures State() == Step(old(State()), OtherPatch(painted))
    {
      if board.NoBoard? {
        return;
      }
      if painted {
        PaintFeed();
      }
    }

    method OnError(painted: bool)
      modifies this
      ensures State() == Step(old(State()), ErrorFrame(painted))
    {
      if painted {
        PaintFeed();
      }
    }

    method OnEvents(batch: seq<Event>, serverCursor: Option<int>, painted: bool)
      modifies this
      ensures State() == Step(old(State()), EventsFrame(batch, serverCursor, painted))
    {
      if |batch| == 0 {
        return;
      }
      eventRows := eventRows + batch;
      if |eventRows| > CAP {
        eventRows := eventRows[|eventRows| - CAP..];
      }
      eventCursor := Last(batch);
      if serverCursor.Some? && serverCursor.value > eventCursor {
        eventCursor := serverCursor.value;
      }
      if board.Board? {
        board := Board(Attach(board.ring, eventRows));
        if painted {
          PaintFeed();
        }
      }
    }

    method Toggle(kind: string, painted: bool)
      modifies this
      ensures State() == Step(old(State()), ToggleKind(kind, painted))
    {
      if kind in EVENT_KINDS {
        if kind in hidden {
          hidden := hidden - {kind};
        } else {
          hidden := hidden + {kind};
        }
      }
      if painted {
        PaintFeed();
      }
    }

    /** paintFeed, called by render and by the events handler. */
    method PaintFeed()
      modifies this
      ensures State() == Paint(old(State()))
    {
      if board.NoBoard? {
        return;
      }
      var sig := SigOf(State());
      var note := NoteOf(State());
      if note.Some? {
        box := Padded(note.value);
        renderedSeq, renderedSig := -1, Some(sig);
        return;
      }
      var rows := RowsShown(State());
      if Stale(State()) {
        box := Rows(ToRows(rows, false));
        renderedSeq, renderedSig := Last(rows), Some(sig);
        return;
      }
      var newer := Fresh(rows, renderedSeq);
      if |newer| > 0 {
        AppendTrimmed(newer);
      }
    }

    /** Append at the bottom, then remove rows from the top one at a time down to the cap. */
    method AppendTrimmed(newer: seq<Event>)
      requires box.Rows? && |newer| > 0
      modifies `box, `renderedSeq
      ensures box == Rows(Newest(old(box.rows) + ToRows(newer, true), CAP)) && renderedSeq == Last(newer)
    {
      ghost var all := box.rows + ToRows(newer, true);
      box := Rows(box.rows + ToRows(newer, true));
      renderedSeq := Last(newer);
      var over := |box.rows| - CAP;
      var i := 0;
      while i < over
        invariant box.Rows? && 0 <= i <= (if over > 0 then over else 0) && box.rows == all[i..]
        invariant renderedSeq == Last(newer)
      {
        box := Rows(box.rows[1..]);
        i := i + 1;
      }
    }
  }
}
