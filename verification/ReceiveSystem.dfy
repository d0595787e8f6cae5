/** The handshake and the receive path together: a size that completes becomes a pending frame
    in the same step, and everything else interleaves freely. */
module ReceiveSystem {
  import opened CTypes
  import H = Handshake
  import R = Receive

  datatype State = State(board: H.State, port: R.State)

  datatype Event =
    | Exchange(h: H.Event)   // a step of the size handshake
    | Local(r: R.Event)      // a step on the stream, the worker or a reader

  const INIT := State(H.INIT, R.INIT)

  /** The sizes a handshake step turns into pending frames: none or one. */
  function NewSizes(s: H.State, e: H.Event): seq<nat> {
    if e.Complete? && s.responses != [] && s.responses[0].Size?
       && H.Accepts(s.responses[0].value, s.pendingReads)
    then [s.responses[0].value] else []
  }

  function Step(s: State, e: Event): State {
    match e
    case Exchange(h) =>
      var sizes := NewSizes(s.board, h);
      State(H.Step(s.board, h), if sizes == [] then s.port else R.Step(s.port, R.Announce(sizes[0])))
    case Local(r) =>
      if r.Announce? then s else s.(port := R.Step(s.port, r))
  }

  function Run(s: State, events: seq<Event>): State
    decreases |events|
  {
    if events == [] then s else Run(Step(s, events[0]), events[1..])
  }

  ghost predicate AllFitting(s: State, events: seq<Event>)
    decreases |events|
  {
    events != [] ==>
      && (events[0].Local? ==> R.Fitting(s.port, events[0].r))
      && AllFitting(Step(s, events[0]), events[1..])
  }

  ghost predicate Inv(s: State) {
    H.Inv(s.board) && R.Inv(s.port) && s.port.sizes == s.board.framed
  }

  lemma CompletedSize(s: H.State)
    requires H.Inv(s) && s.responses != [] && s.responses[0].Size?
    ensures 0 < s.responses[0].value < U32 && H.Accepts(s.responses[0].value, s.pendingReads)
  {
    H.CarriedTail(s.responses);
    assert H.Carried(s.responses)[0] == s.responses[0].value;
  }

  lemma InvExchange(s: State, h: H.Event)
    requires Inv(s)
    ensures Inv(Step(s, Exchange(h)))
  {
    H.InvStep(s.board, h);
    if NewSizes(s.board, h) != [] {
      CompletedSize(s.board);
      R.InvAnnounce(s.port, s.board.responses[0].value);
    }
  }

  lemma {:induction false} InvRun(s: State, events: seq<Event>)
    requires Inv(s) && AllFitting(s, events)
    ensures Inv(Run(s, events))
    decreases |events|
  {
    if events != [] {
      match events[0] {
        case Exchange(h) => InvExchange(s, h);
        case Local(r) => if !r.Announce? { R.InvStep(s.port, r); SizesStay(s.port, r); }
      }
      InvRun(Step(s, events[0]), events[1..]);
    }
  }

  lemma SizesStay(s: R.State, e: R.Event)
    requires !e.Announce?
    ensures R.Step(s, e).sizes == s.sizes
  {
  }

  /** The handshake's share of a run is a run of the handshake alone. */
  function BoardEvents(events: seq<Event>): seq<H.Event> {
    if events == [] then []
    else (if events[0].Exchange? then [events[0].h] else []) + BoardEvents(events[1..])
  }

  lemma {:induction false} BoardRun(s: State, events: seq<Event>)
    ensures Run(s, events).board == H.Run(s.board, BoardEvents(events))
    decreases |events|
  {
    if events != [] {
      BoardRun(Step(s, events[0]), events[1..]);
      if events[0].Exchange? {
        assert BoardEvents(events)[1..] == BoardEvents(events[1..]);
      } else {
        assert BoardEvents(events) == BoardEvents(events[1..]);
      }
    }
  }

  lemma FollowsInState(s: State)
    requires Inv(s) && s.board.failures == 0 && R.NothingLost(s.port)
    ensures s.port.sizes <= s.board.announced
    ensures R.DoneData(s.port.done) <= R.Slices(s.port.accepted, s.board.announced)
    ensures !R.CanCut(s.port) && s.port.sizes == s.board.announced ==>
      R.DoneData(s.port.done) == R.Slices(s.port.accepted, s.board.announced)
  {
    R.FramesAreSlices(s.port);
    assert s.port.sizes <= s.board.announced;
    SlicesMonotone(s.port.accepted, s.port.sizes, s.board.announced);
  }

  /** End to end. In every run without failed requests and without losses, in any interleaving of
      the board, the packets, the completions, the worker and the readers: the frames finished so
      far are the first slices of the accepted stream at the sizes the board announced, in the
      board's order. They are all of them once the exchange is quiet, nothing was announced since
      the board last sampled its count, and the worker has nothing left to cut. */
  lemma FramesFollowTheBoard(events: seq<Event>)
    requires AllFitting(INIT, events)
    requires Run(INIT, events).board.failures == 0 && R.NothingLost(Run(INIT, events).port)
    ensures var s := Run(INIT, events);
      && R.DoneData(s.port.done) <= R.Slices(s.port.accepted, s.board.announced)
      && (H.Quiescent(s.board) && s.board.sinceSample == 0 && !R.CanCut(s.port) ==>
            R.DoneData(s.port.done) == R.Slices(s.port.accepted, s.board.announced))
  {
    var s := Run(INIT, events);
    StartsWell();
    InvRun(INIT, events);
    FollowsInState(s);
    BoardRun(INIT, events);
    H.FetchedWhenQuiescent(BoardEvents(events));
    if H.Quiescent(s.board) && s.board.sinceSample == 0 {
      assert s.board.framed + [] == s.board.framed;
    }
  }

  lemma StartsWell()
    ensures Inv(INIT)
  {
    H.StartsWell();
    R.StartsWell();
  }

  lemma {:induction false} SlicesMonotone(stream: seq<Byte>, a: seq<nat>, b: seq<nat>)
    requires a <= b
    ensures R.Slices(stream, a) <= R.Slices(stream, b)
    decreases |a|
  {
    if a != [] && |stream| >= a[0] {
      SlicesMonotone(stream[a[0]..], a[1..], b[1..]);
    }
  }
}
