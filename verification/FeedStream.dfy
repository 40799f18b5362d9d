/** The stream between the server's event ring and the client's window: ticks, frames in flight,
    and reconnects that resume from the cursor (dashboard/board.js, dashboard/server.mjs). */
module FeedStream {
  import opened Feed
  import opened Folds
  import opened Wrappers

  /** The reference, a server that forgets nothing; the ring of the real one is below.
      log is every event so far; sent is the server's cursor for this connection; inFlight are the
      events frames it has written and the client has not read. */
  datatype Link = Link(log: seq<Event>, sent: int, inFlight: seq<seq<Event>>, window: seq<Event>, cursor: int)

  datatype Move = Emit(event: Event) | Tick | Deliver | Resubscribe

  const OPENED := Link([], 0, [], [], 0)

  function Frames(batch: seq<Event>): seq<seq<Event>> { if |batch| == 0 then [] else [batch] }

  function Next(l: Link, move: Move): Link {
    match move
    case Emit(e) => l.(log := l.log + [e])
    case Tick =>
      var batch := Fresh(l.log, l.sent);
      if |batch| == 0 then l else l.(sent := Last(batch), inFlight := l.inFlight + [batch])
    case Deliver =>
      if |l.inFlight| == 0 || |l.inFlight[0]| == 0 then l
      else l.(window := Newest(l.window + l.inFlight[0], CAP), cursor := Last(l.inFlight[0]), inFlight := l.inFlight[1..])
    case Resubscribe =>
      // frames in flight are lost with the connection; the new one replays what is above the cursor
      var batch := Fresh(l.log, l.cursor);
      l.(sent := if |batch| == 0 then l.cursor else Last(batch), inFlight := Frames(batch))
  }

  function RunMoves(moves: seq<Move>): Link {
    if |moves| == 0 then OPENED else Next(RunMoves(moves[..|moves| - 1]), moves[|moves| - 1])
  }

  /** New events are numbered above all earlier ones, from one. */
  ghost predicate Numbered(l: Link, move: Move) {
    move.Emit? ==> move.event.number > 0 && forall e <- l.log :: e.number < move.event.number
  }

  ghost predicate Possible(moves: seq<Move>) {
    |moves| == 0 || (Possible(moves[..|moves| - 1]) && Numbered(RunMoves(moves[..|moves| - 1]), moves[|moves| - 1]))
  }

  const Whole := (batch: seq<Event>) => batch

  /** A cursor is the number of some event, or nothing was sent. */
  ghost predicate Reached(log: seq<Event>, c: int) { c == 0 || exists e <- log :: e.number == c }

  /** What was sent is what was read followed by what is in flight, and the window is the newest of what was read. */
  ghost predicate Inv(l: Link) {
    && Increasing(l.log) && (forall e <- l.log :: e.number > 0)
    && 0 <= l.cursor <= l.sent && Reached(l.log, l.cursor) && Reached(l.log, l.sent)
    && (forall batch <- l.inFlight :: |batch| > 0)
    && UpTo(l.log, l.sent) == UpTo(l.log, l.cursor) + FlatMap(l.inFlight, Whole)
    && l.window == Newest(UpTo(l.log, l.cursor), CAP)
  }

  // ----- lists -----

  lemma {:induction false} UpToMembers(s: seq<Event>, c: int)
    ensures forall e :: e in UpTo(s, c) <==> e in s && e.number <= c
  {
    if |s| > 0 {
      UpToMembers(s[..|s| - 1], c);
      LastOrEarlier(s);
    }
  }

  lemma {:induction false} FreshMembers(s: seq<Event>, c: int)
    ensures forall e :: e in Fresh(s, c) <==> e in s && e.number > c
  {
    if |s| > 0 {
      FreshMembers(s[..|s| - 1], c);
      LastOrEarlier(s);
    }
  }

  lemma {:induction false} UpToTwice(s: seq<Event>, c: int, d: int)
    requires c <= d
    ensures UpTo(UpTo(s, d), c) == UpTo(s, c)
  {
    if |s| > 0 {
      var front, e := s[..|s| - 1], s[|s| - 1];
      UpToTwice(front, c, d);
      FlatMapAppend(UpTo(front, d), AtMost(d)(e), AtMost(c));
      assert AtMost(d)(e) == [e] ==> [e][..0] == [];
    }
  }

  /** In increasing a + b + rest the rows up to the last of b are a + b. */
  lemma UpToLastOf(a: seq<Event>, b: seq<Event>, rest: seq<Event>)
    requires Increasing(a + b + rest) && |b| > 0
    ensures UpTo(a + b + rest, Last(b)) == a + b
  {
    IncreasingPart(a + b, rest);
    AllUpToLast(a + b);
    LastOfAppend(a, b);
    FlatMapAppend(a + b, rest, AtMost(Last(b)));
    assert (a + b)[|a + b| - 1] in a + b;
    UpToEmpty(rest, Last(b));
  }

  lemma NewestAgain<T>(s: seq<T>, more: seq<T>, n: nat)
    ensures Newest(Newest(s, n) + more, n) == Newest(s + more, n)
  {
  }

  /** All rows above c: nothing is left out up to their last. */
  lemma CaughtUp(log: seq<Event>, c: int)
    requires Increasing(log)
    ensures
      var batch := Fresh(log, c);
      && log == UpTo(log, c) + batch
      && (|batch| > 0 ==> Last(batch) > c && UpTo(log, Last(batch)) == log)
  {
    var batch := Fresh(log, c);
    SplitAt(log, c);
    if |batch| > 0 {
      FreshMembers(log, c);
      assert batch[|batch| - 1] in batch;
      LastOfAppend(UpTo(log, c), batch);
      AllUpToLast(log);
    }
  }

  // ----- moves -----

  lemma EmitKeeps(l: Link, e: Event)
    requires Inv(l) && Numbered(l, Emit(e))
    ensures Inv(Next(l, Emit(e)))
  {
    IncreasingAppend(l.log, [e]);
    EmitUnseen(l.log, e, l.sent);
    EmitUnseen(l.log, e, l.cursor);
  }

  lemma EmitUnseen(log: seq<Event>, e: Event, c: int)
    requires Reached(log, c) && e.number > 0 && forall x <- log :: x.number < e.number
    ensures UpTo(log + [e], c) == UpTo(log, c) && Reached(log + [e], c)
    ensures forall x <- log + [e] :: x in log || x == e
  {
    assert (log + [e])[..|log|] == log;
    assert e.number > c;
    if c != 0 {
      var x :| x in log && x.number == c;
      assert x in log + [e];
    }
  }

  lemma TickKeeps(l: Link)
    requires Inv(l)
    ensures Inv(Next(l, Tick))
  {
    var batch := Fresh(l.log, l.sent);
    if |batch| > 0 {
      CaughtUp(l.log, l.sent);
      FrameMore(l.inFlight, batch);
      LastReached(l.log, l.sent);
      Regroup(UpTo(l.log, l.cursor), FlatMap(l.inFlight, Whole), batch);
      SentMore(l, Last(batch), l.inFlight + [batch]);
    }
  }

  lemma SentMore(l: Link, sent: int, frames: seq<seq<Event>>)
    requires Inv(l) && sent > l.sent && Reached(l.log, sent) && (forall b <- frames :: |b| > 0)
    requires UpTo(l.log, sent) == UpTo(l.log, l.cursor) + FlatMap(frames, Whole)
    ensures Inv(l.(sent := sent, inFlight := frames))
  {
  }

  lemma FrameMore(frames: seq<seq<Event>>, batch: seq<Event>)
    requires |batch| > 0 && forall b <- frames :: |b| > 0
    ensures FlatMap(frames + [batch], Whole) == FlatMap(frames, Whole) + batch
    ensures forall b <- frames + [batch] :: |b| > 0
  {
    assert (frames + [batch])[..|frames|] == frames;
  }

  lemma LastReached(log: seq<Event>, c: int)
    requires |Fresh(log, c)| > 0
    ensures Last(Fresh(log, c)) > c && Reached(log, Last(Fresh(log, c)))
  {
    var batch := Fresh(log, c);
    FreshMembers(log, c);
    assert batch[|batch| - 1] in batch;
  }

  lemma SingleFrame(batch: seq<Event>)
    ensures FlatMap([batch], Whole) == batch && FlatMap(Frames(batch), Whole) == batch
  {
    assert [batch][..0] == [];
  }

  lemma ResubscribeKeeps(l: Link)
    requires Inv(l)
    ensures Inv(Next(l, Resubscribe))
  {
    var batch := Fresh(l.log, l.cursor);
    CaughtUp(l.log, l.cursor);
    SingleFrame(batch);
    if |batch| > 0 {
      LastReached(l.log, l.cursor);
    }
  }

  /** The first frame in flight continues what was read: it is in order above the cursor, and what
      is read after it is what was read before followed by it. */
  lemma FirstFrame(l: Link)
    requires Inv(l) && |l.inFlight| > 0
    ensures
      var b := l.inFlight[0];
      var rest := FlatMap(l.inFlight[1..], Whole);
      && |b| > 0 && Increasing(b) && (forall e <- b :: e.number > l.cursor)
      && UpTo(l.log, Last(b)) == UpTo(l.log, l.cursor) + b
      && l.cursor < Last(b) <= l.sent && Reached(l.log, Last(b))
      && UpTo(l.log, l.sent) == UpTo(l.log, Last(b)) + rest
  {
    var b := l.inFlight[0];
    var rest := FlatMap(l.inFlight[1..], Whole);
    var a := UpTo(l.log, l.cursor);
    assert b in l.inFlight;
    assert l.inFlight == [b] + l.inFlight[1..];
    FlatMapAppend([b], l.inFlight[1..], Whole);
    SingleFrame(b);
    assert UpTo(l.log, l.sent) == a + b + rest;
    ChosenIncreasing(l.log, AtMost(l.sent));
    UpToLastOf(a, b, rest);
    IncreasingPart(a + b, rest);
    IncreasingPart(a, b);
    FramesAbove(l, a, b, rest);
    UpToTwice(l.log, Last(b), l.sent);
  }

  lemma FramesAbove(l: Link, a: seq<Event>, b: seq<Event>, rest: seq<Event>)
    requires Inv(l) && |b| > 0 && a == UpTo(l.log, l.cursor) && UpTo(l.log, l.sent) == a + b + rest && Increasing(a + b)
    ensures (forall e <- b :: l.cursor < e.number <= l.sent && e in l.log) && b[|b| - 1] in b
  {
    UpToMembers(l.log, l.sent);
    UpToMembers(l.log, l.cursor);
    IncreasingPart(a, b);
    forall e | e in b ensures l.cursor < e.number <= l.sent && e in l.log {
      assert e in a + b + rest;
      assert e.number <= l.cursor ==> e in a;
    }
  }

  lemma DeliverKeeps(l: Link)
    requires Inv(l)
    ensures Inv(Next(l, Deliver))
  {
    if |l.inFlight| > 0 {
      FirstFrame(l);
      NewestAgain(UpTo(l.log, l.cursor), l.inFlight[0], CAP);
    }
  }

  /** Every run of emissions, ticks, deliveries and reconnects, in any interleaving, leaves the
      window with the newest events up to the cursor: none skipped, none twice. */
  lemma {:induction false} NothingSkippedOrReplayed(moves: seq<Move>)
    requires Possible(moves)
    ensures
      var l := RunMoves(moves);
      && Inv(l)
      && l.window == Newest(UpTo(l.log, l.cursor), CAP)
      && (forall e <- l.log :: e in UpTo(l.log, l.cursor) <==> e.number <= l.cursor)
  {
    if |moves| > 0 {
      var before, move := moves[..|moves| - 1], moves[|moves| - 1];
      NothingSkippedOrReplayed(before);
      match move
      case Emit(e) => EmitKeeps(RunMoves(before), e);
      case Tick => TickKeeps(RunMoves(before));
      case Deliver => DeliverKeeps(RunMoves(before));
      case Resubscribe => ResubscribeKeeps(RunMoves(before));
    }
    UpToMembers(RunMoves(moves).log, RunMoves(moves).cursor);
  }

  // ----- the server's ring -----

  /** The real server sends only what its ring still holds: the newest CAP events. */
  function RingNext(l: Link, move: Move): Link {
    match move
    case Emit(e) => l.(log := l.log + [e])
    case Tick =>
      var batch := Fresh(Newest(l.log, CAP), l.sent);
      if |batch| == 0 then l else l.(sent := Last(batch), inFlight := l.inFlight + [batch])
    case Deliver =>
      if |l.inFlight| == 0 || |l.inFlight[0]| == 0 then l
      else l.(window := Newest(l.window + l.inFlight[0], CAP), cursor := Last(l.inFlight[0]), inFlight := l.inFlight[1..])
    case Resubscribe =>
      var batch := Fresh(Newest(l.log, CAP), l.cursor);
      l.(sent := if |batch| == 0 then l.cursor else Last(batch), inFlight := Frames(batch))
  }

  function RingRun(moves: seq<Move>): Link {
    if |moves| == 0 then OPENED else RingNext(RingRun(moves[..|moves| - 1]), moves[|moves| - 1])
  }

  /** The newest of each frame. */
  function Trimmed(frames: seq<seq<Event>>): seq<seq<Event>> {
    seq(|frames|, i requires 0 <= i < |frames| => Newest(frames[i], CAP))
  }

  function Capped(l: Link): Link { l.(inFlight := Trimmed(l.inFlight)) }

  lemma {:induction false} FreshAll(s: seq<Event>, c: int)
    requires forall e <- s :: e.number > c
    ensures Fresh(s, c) == s
  {
    if |s| > 0 {
      var front, e := s[..|s| - 1], s[|s| - 1];
      assert e in s && forall x <- front :: x in s;
      FreshAll(front, c);
      assert Above(c)(e) == [e] && s == front + [e];
    }
  }

  /** What is fresh in the ring is the newest of what is fresh in the log. */
  lemma RingFresh(log: seq<Event>, c: int)
    requires Increasing(log)
    ensures Fresh(Newest(log, CAP), c) == Newest(Fresh(log, c), CAP)
  {
    SplitAt(log, c);
    UpToMembers(log, c);
    FreshMembers(log, c);
    FreshAfter(UpTo(log, c), Fresh(log, c), c);
  }

  lemma FreshAfter(seen: seq<Event>, unseen: seq<Event>, c: int)
    requires (forall e <- seen :: e.number <= c) && forall e <- unseen :: e.number > c
    ensures Fresh(Newest(seen + unseen, CAP), c) == Newest(unseen, CAP)
  {
    if |unseen| <= CAP {
      var kept := Newest(seen, CAP - |unseen|);
      assert Newest(seen + unseen, CAP) == kept + unseen;
      assert forall e <- kept :: e in seen;
      FreshEmpty(kept, c);
      FreshAll(unseen, c);
      FlatMapAppend(kept, unseen, Above(c));
    } else {
      assert Newest(seen + unseen, CAP) == Newest(unseen, CAP);
      assert forall e <- Newest(unseen, CAP) :: e in unseen;
      FreshAll(Newest(unseen, CAP), c);
    }
  }

  lemma NewestKeepsLast(s: seq<Event>)
    ensures |Newest(s, CAP)| == 0 <==> |s| == 0
    ensures |s| > 0 ==> Last(Newest(s, CAP)) == Last(s)
  {
  }

  lemma TrimmedParts(frames: seq<seq<Event>>, batch: seq<Event>)
    ensures Trimmed(frames + [batch]) == Trimmed(frames) + [Newest(batch, CAP)]
    ensures Trimmed(Frames(batch)) == Frames(Newest(batch, CAP))
    ensures |frames| > 0 ==> Trimmed(frames)[0] == Newest(frames[0], CAP) && Trimmed(frames)[1..] == Trimmed(frames[1..])
  {
    NewestKeepsLast(batch);
  }

  lemma NewestOfNewest<T>(s: seq<T>, more: seq<T>, n: nat)
    ensures Newest(s + Newest(more, n), n) == Newest(s + more, n)
  {
  }

  lemma RingStep(l: Link, move: Move)
    requires Increasing(l.log)
    ensures RingNext(Capped(l), move) == Capped(Next(l, move))
  {
    match move
    case Emit(e) =>
    case Tick =>
      RingFresh(l.log, l.sent);
      NewestKeepsLast(Fresh(l.log, l.sent));
      TrimmedParts(l.inFlight, Fresh(l.log, l.sent));
    case Deliver =>
      if |l.inFlight| > 0 {
        TrimmedParts(l.inFlight, []);
        NewestKeepsLast(l.inFlight[0]);
        NewestOfNewest(l.window, l.inFlight[0], CAP);
      }
    case Resubscribe =>
      RingFresh(l.log, l.cursor);
      NewestKeepsLast(Fresh(l.log, l.cursor));
      TrimmedParts([], Fresh(l.log, l.cursor));
  }

  /** A server with a ring does what the reference does, with each frame cut to its newest CAP events. */
  lemma {:induction false} RingRefines(moves: seq<Move>)
    requires Possible(moves)
    ensures RingRun(moves) == Capped(RunMoves(moves))
  {
    if |moves| == 0 {
      assert Trimmed([]) == [];
    } else {
      var before := moves[..|moves| - 1];
      RingRefines(before);
      NothingSkippedOrReplayed(before);
      RingStep(RunMoves(before), moves[|moves| - 1]);
    }
  }

  /** The window holds, in order, only events up to the cursor, and all of them but the older ones
      beyond four hundred. */
  ghost predicate NewestUpTo(window: seq<Event>, log: seq<Event>, c: int) {
    && Increasing(window) && |window| <= 400 && (forall e <- window :: e in log && e.number <= c)
    && forall e <- log :: e.number <= c ==> e in window || (|window| == 400 && forall x <- window :: e.number < x.number)
  }

  lemma NewestIs(log: seq<Event>, c: int)
    requires Increasing(log)
    ensures NewestUpTo(Newest(UpTo(log, c), CAP), log, c)
  {
    var all := UpTo(log, c);
    UpToMembers(log, c);
    ChosenIncreasing(log, AtMost(c));
    var dropped := NewestSplit(all, CAP);
    IncreasingPart(dropped, Newest(all, CAP));
    assert forall e :: e in all <==> e in dropped || e in Newest(all, CAP);
  }

  /** So with the ring as well the window is the newest 400 events up to the cursor in every run,
      however much the ring has dropped. */
  lemma RingKeepsWindow(moves: seq<Move>)
    requires Possible(moves)
    ensures
      var l := RingRun(moves);
      && l.log == RunMoves(moves).log && l.window == Newest(UpTo(l.log, l.cursor), CAP)
      && NewestUpTo(l.window, l.log, l.cursor)
  {
    RingRefines(moves);
    NothingSkippedOrReplayed(moves);
    NewestIs(RunMoves(moves).log, RunMoves(moves).cursor);
  }

  /** What the feed assumes of a delivered batch holds in every run: it is in order above the cursor. */
  lemma DeliveredInOrder(moves: seq<Move>, s: FeedState)
    requires Possible(moves) && |RingRun(moves).inFlight| > 0 && s.cursor == RingRun(moves).cursor
    ensures InOrder(s, EventsFrame(RingRun(moves).inFlight[0], None, true))
  {
    var l := RunMoves(moves);
    RingRefines(moves);
    NothingSkippedOrReplayed(moves);
    FirstFrame(l);
    TrimmedParts(l.inFlight, []);
    var dropped := NewestSplit(l.inFlight[0], CAP);
    IncreasingPart(dropped, Newest(l.inFlight[0], CAP));
    assert forall e <- Newest(l.inFlight[0], CAP) :: e in l.inFlight[0];
  }

  // ----- from the ring to the painted box -----

  /** The stream and the client it feeds. */
  datatype Joint = Joint(link: Link, ui: FeedState)

  /** A move of the stream, whose delivery may be painted, or anything else that reaches the client. */
  datatype Happening = Wire(move: Move, painted: bool) | Local(input: Input)

  function JointNext(j: Joint, h: Happening): Joint {
    match h
    case Wire(move, painted) =>
      var frames := j.link.inFlight;
      Joint(
        RingNext(j.link, move),
        if move.Deliver? && |frames| > 0 && |frames[0]| > 0
        then Step(j.ui, EventsFrame(frames[0], Some(Last(frames[0])), painted)) else j.ui)
    case Local(input) => if input.EventsFrame? then j else j.(ui := Step(j.ui, input))
  }

  function JointRun(hs: seq<Happening>): Joint {
    if |hs| == 0 then Joint(OPENED, INITIAL) else JointNext(JointRun(hs[..|hs| - 1]), hs[|hs| - 1])
  }

  /** The moves of the stream alone. */
  function MovesOf(hs: seq<Happening>): seq<Move> {
    if |hs| == 0 then []
    else if hs[|hs| - 1].Wire? then MovesOf(hs[..|hs| - 1]) + [hs[|hs| - 1].move]
    else MovesOf(hs[..|hs| - 1])
  }

  /** The happening ends in a paint. */
  predicate PaintsBox(j: Joint, h: Happening) {
    match h
    case Wire(move, painted) => move.Deliver? && |j.link.inFlight| > 0 && |j.link.inFlight[0]| > 0 && painted
    case Local(input) => !input.EventsFrame? && Paints(j.ui, input)
  }

  ghost predicate InStep(j: Joint) {
    Feed.Inv(j.ui) && j.ui.window == j.link.window && j.ui.cursor == j.link.cursor
  }

  /** The box shows the stream: a note where a redraw shows one; otherwise rows in order that end with
      exactly the visible ones among the newest CAP events up to the cursor. */
  ghost predicate ShowsStream(j: Joint) {
    Agrees(j.ui) &&
    (j.ui.board.Board? && NoteOf(j.ui).None? ==>
       j.ui.box.Rows?
       && Suffix(Pick(Newest(UpTo(j.link.log, j.link.cursor), CAP), Shown(j.ui.hidden)), EventsOf(j.ui.box.rows)))
  }

  lemma LocalInStep(j: Joint, input: Input)
    requires InStep(j) && !input.EventsFrame?
    ensures InStep(j.(ui := Step(j.ui, input))) && (Paints(j.ui, input) ==> Agrees(Step(j.ui, input)))
  {
    Feed.StepKeepsInv(j.ui, input);
    Feed.StepMovesWindow(j.ui, input);
  }

  lemma DeliverInStep(moves: seq<Move>, j: Joint, painted: bool)
    requires Possible(moves) && j.link == RingRun(moves) && InStep(j) && |j.link.inFlight| > 0 && |j.link.inFlight[0]| > 0
    ensures
      var after := JointNext(j, Wire(Deliver, painted));
      InStep(after) && (painted ==> Agrees(after.ui))
  {
    var frame := j.link.inFlight[0];
    var input := EventsFrame(frame, Some(Last(frame)), painted);
    DeliveredInOrder(moves, j.ui);
    Feed.StepKeepsInv(j.ui, input);
    Feed.StepMovesWindow(j.ui, input);
  }

  lemma OtherMovesKeepWindow(l: Link, move: Move)
    requires !move.Deliver? || |l.inFlight| == 0 || |l.inFlight[0]| == 0
    ensures RingNext(l, move).window == l.window && RingNext(l, move).cursor == l.cursor
  {
  }

  lemma HappeningInStep(moves: seq<Move>, j: Joint, h: Happening)
    requires Possible(moves) && j.link == RingRun(moves) && InStep(j)
    ensures
      var after := JointNext(j, h);
      && InStep(after) && (PaintsBox(j, h) ==> Agrees(after.ui))
      && after.link == match h case Wire(move, _) => RingNext(j.link, move) case Local(_) => j.link
  {
    match h
    case Wire(move, painted) =>
      if move.Deliver? && |j.link.inFlight| > 0 && |j.link.inFlight[0]| > 0 {
        DeliverInStep(moves, j, painted);
      } else {
        OtherMovesKeepWindow(j.link, move);
      }
    case Local(input) =>
      if !input.EventsFrame? {
        LocalInStep(j, input);
      }
  }

  /** In every joint run of emissions, ticks, deliveries, reconnects, board frames, patches, errors and
      toggles the client's window and cursor are those of the stream, and after every paint the box shows
      the visible ones among the newest CAP events up to the cursor. */
  lemma {:induction false} BoxShowsStream(hs: seq<Happening>)
    requires Possible(MovesOf(hs))
    ensures JointRun(hs).link == RingRun(MovesOf(hs)) && InStep(JointRun(hs))
    ensures |hs| > 0 && PaintsBox(JointRun(hs[..|hs| - 1]), hs[|hs| - 1]) ==> ShowsStream(JointRun(hs))
  {
    if |hs| > 0 {
      var front, h := hs[..|hs| - 1], hs[|hs| - 1];
      var moves := MovesOf(front);
      assert h.Wire? ==> MovesOf(hs)[..|moves|] == moves;
      BoxShowsStream(front);
      HappeningInStep(moves, JointRun(front), h);
    }
    RingKeepsWindow(MovesOf(hs));
  }
}
