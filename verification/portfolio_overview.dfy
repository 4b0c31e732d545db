/** The portfolio overview card: its local state, one run of its `fetchData`
    poll, the choice of what to render, and the signs and arrows it shows.
    The portfolio summary and history are opaque (`S`, `H`); their fetches
    are reduced to the outcomes of the two requests. */
module PortfolioOverview {
  import opened Values
  import opened Transport

  const LoadFailed := "Failed to load portfolio data"

  /** The component's local state. */
  datatype ViewState<S, H> = ViewState(
    summary: Option<S>,
    history: Option<H>,
    loading: bool,
    error: Option<string>)

  function InitialView<S, H>(): ViewState<S, H> {
    ViewState(None, None, true, None)
  }

  /** The outcomes of one poll's two requests. Either request may resolve
      with `null`, and the component stores what it resolved with as is. */
  datatype Tick<S, H> = Tick(summary: Outcome<Option<S>>, history: Outcome<Option<H>>)

  /** A poll fails when either of its requests fails. */
  predicate Fails<S, H>(t: Tick<S, H>) {
    t.summary.Failed? || t.history.Failed?
  }

  /** Both requests run together; the pair is available only if both
      succeed, and a single failure fails the pair. */
  function Join<A, B>(a: Outcome<A>, b: Outcome<B>): (r: Option<(A, B)>)
    ensures r.Some? <==> a.Ok? && b.Ok?
    ensures r.Some? ==> r.value == (a.data, b.data)
  {
    if a.Ok? && b.Ok? then Some((a.data, b.data)) else None
  }

  /** The state while the two requests are in flight. */
  function Begin<S, H>(st: ViewState<S, H>): ViewState<S, H> {
    st.(loading := true)
  }

  /** The state once the joined requests have settled, as the component
      writes it: success stores both resolved values, failure stores the
      message, and loading is cleared either way. */
  function Settle<S, H>(st: ViewState<S, H>, joined: Option<(Option<S>, Option<H>)>): ViewState<S, H> {
    match joined
    case Some((s, h)) => st.(summary := s, history := h, loading := false)
    case None => st.(error := Some(LoadFailed), loading := false)
  }

  /** One completed run of `fetchData` for the signed-in user's id. */
  function FetchData<S, H>(st: ViewState<S, H>, userId: Option<string>, t: Tick<S, H>): (r: ViewState<S, H>)
    // without a user id nothing happens, so an initial skeleton stays up
    ensures !Truthy(userId) ==> r == st
    ensures Truthy(userId) ==> !r.loading
    // a success replaces both values, null included, but leaves an earlier
    // error in place
    ensures Truthy(userId) && !Fails(t) ==>
              && r.summary == t.summary.data && r.history == t.history.data
              && r.error == st.error
    // a failure of either request, even when the other one succeeded, keeps
    // the previous values and records the message
    ensures Truthy(userId) && Fails(t) ==>
              && r.summary == st.summary && r.history == st.history
              && r.error == Some(LoadFailed)
  {
    if !Truthy(userId) then st else Settle(Begin(st), Join(t.summary, t.history))
  }

  /** What the component renders. */
  datatype View<S> = Skeleton | ErrorCard(message: string) | Blank | Overview(summary: S)

  /** The render branches, tested in order: loading, then error, then a
      missing summary. */
  function Render<S, H>(st: ViewState<S, H>): (v: View<S>)
    ensures v.Skeleton? <==> st.loading
    ensures v.ErrorCard? <==> !st.loading && Truthy(st.error)
    ensures v.Blank? <==> !st.loading && !Truthy(st.error) && st.summary.None?
    ensures v.Overview? <==> !st.loading && !Truthy(st.error) && st.summary.Some?
    ensures v.ErrorCard? ==> v.message == st.error.value
    ensures v.Overview? ==> v.summary == st.summary.value
  {
    if st.loading then Skeleton
    else if Truthy(st.error) then ErrorCard(st.error.value)
    else if st.summary.None? then Blank
    else Overview(st.summary.value)
  }

  /** Every poll, not only the first, shows the skeleton while in flight. */
  lemma InFlightShowsSkeleton<S, H>(st: ViewState<S, H>)
    ensures Render(Begin(st)) == Skeleton
  {
  }

  /** The state after consecutive completed polls. */
  function Poll<S, H>(st: ViewState<S, H>, userId: Option<string>, ticks: seq<Tick<S, H>>): ViewState<S, H>
    decreases |ticks|
  {
    if |ticks| == 0 then st
    else FetchData(Poll(st, userId, ticks[..|ticks| - 1]), userId, ticks[|ticks| - 1])
  }

  /** A first poll whose summary request resolves with `null` renders
      nothing. */
  lemma NullSummaryRendersNothing<S, H>(userId: Option<string>, h: Option<H>)
    requires Truthy(userId)
    ensures Render(Poll(InitialView<S, H>(), userId, [Tick(Ok(None), Ok(h))])) == Blank
  {
  }

  /** Without a user id no poll changes anything: from mount, the skeleton
      is shown for ever. */
  lemma {:induction false} PollWithoutUser<S, H>(st: ViewState<S, H>, userId: Option<string>, ticks: seq<Tick<S, H>>)
    requires !Truthy(userId)
    ensures Poll(st, userId, ticks) == st
    ensures Render(Poll(InitialView<S, H>(), userId, ticks)) == Skeleton
    decreases |ticks|
  {
    if |ticks| > 0 {
      PollWithoutUser(st, userId, ticks[..|ticks| - 1]);
    }
  }

  /** After polls for a user, the error is the load-failure message if some
      poll failed, and otherwise the error the polls started from: a success
      never clears it. Unless the polls started from that very message, it
      is therefore present exactly when some poll failed. */
  lemma {:induction false} PollError<S, H>(st: ViewState<S, H>, userId: Option<string>, ticks: seq<Tick<S, H>>)
    requires Truthy(userId)
    ensures (exists i :: 0 <= i < |ticks| && Fails(ticks[i])) ==>
              Poll(st, userId, ticks).error == Some(LoadFailed)
    ensures (forall i :: 0 <= i < |ticks| ==> !Fails(ticks[i])) ==>
              Poll(st, userId, ticks).error == st.error
    ensures st.error != Some(LoadFailed) ==>
              (Poll(st, userId, ticks).error == Some(LoadFailed) <==>
               exists i :: 0 <= i < |ticks| && Fails(ticks[i]))
    decreases |ticks|
  {
    if |ticks| > 0 {
      var pre := ticks[..|ticks| - 1];
      PollError(st, userId, pre);
      assert forall i :: 0 <= i < |pre| ==> pre[i] == ticks[i];
      if !Fails(ticks[|ticks| - 1]) && exists i :: 0 <= i < |ticks| && Fails(ticks[i]) {
        var i :| 0 <= i < |ticks| && Fails(ticks[i]);
        assert Fails(pre[i]);
      }
    }
  }

  /** A success, then a poll whose summary request fails while its history
      request succeeds, then a success: from mount the error card stays up
      after the recovery. */
  lemma ErrorSticksAfterRecovery<S, H>(userId: Option<string>, s: Option<S>, h: Option<H>, f: Failure)
    requires Truthy(userId)
    ensures Render(Poll(InitialView<S, H>(), userId,
                        [Tick(Ok(s), Ok(h)), Tick(Failed(f), Ok(h)), Tick(Ok(s), Ok(h))]))
            == ErrorCard(LoadFailed)
  {
    var ticks := [Tick(Ok(s), Ok(h)), Tick(Failed(f), Ok(h)), Tick(Ok(s), Ok(h))];
    assert Fails(ticks[1]);
    PollError(InitialView<S, H>(), userId, ticks);
  }

  /** The settled state with a successful cycle also clearing the error. */
  function SettleCorrected<S, H>(st: ViewState<S, H>, joined: Option<(Option<S>, Option<H>)>): ViewState<S, H> {
    match joined
    case Some((s, h)) => st.(summary := s, history := h, error := None, loading := false)
    case None => st.(error := Some(LoadFailed), loading := false)
  }

  /** One run of `fetchData` where a success clears an earlier error. */
  function FetchDataCorrected<S, H>(st: ViewState<S, H>, userId: Option<string>, t: Tick<S, H>): (r: ViewState<S, H>)
    ensures !Truthy(userId) ==> r == st
    ensures Truthy(userId) && !Fails(t) ==>
              Render(r) == (if t.summary.data.Some? then Overview(t.summary.data.value) else Blank)
    ensures Truthy(userId) && Fails(t) ==> Render(r) == ErrorCard(LoadFailed)
    ensures Truthy(userId) ==> r.summary == (if Fails(t) then st.summary else t.summary.data)
  {
    if !Truthy(userId) then st else SettleCorrected(Begin(st), Join(t.summary, t.history))
  }

  function PollCorrected<S, H>(st: ViewState<S, H>, userId: Option<string>, ticks: seq<Tick<S, H>>): ViewState<S, H>
    decreases |ticks|
  {
    if |ticks| == 0 then st
    else FetchDataCorrected(PollCorrected(st, userId, ticks[..|ticks| - 1]), userId, ticks[|ticks| - 1])
  }

  /** With the corrected step the view always reflects the latest poll: an
      error card after a failure, and after a success the overview of the
      summary it resolved with, or nothing when that was `null`. */
  lemma CorrectedShowsLatestPoll<S, H>(st: ViewState<S, H>, userId: Option<string>, ticks: seq<Tick<S, H>>)
    requires Truthy(userId) && |ticks| > 0
    ensures Fails(ticks[|ticks| - 1]) ==> Render(PollCorrected(st, userId, ticks)) == ErrorCard(LoadFailed)
    ensures !Fails(ticks[|ticks| - 1]) ==>
              var s := ticks[|ticks| - 1].summary.data;
              Render(PollCorrected(st, userId, ticks)) == (if s.Some? then Overview(s.value) else Blank)
  {
  }

  /** The same success, failure, success sequence now recovers. */
  lemma CorrectedRecovers<S, H>(userId: Option<string>, s: S, h: Option<H>, f: Failure)
    requires Truthy(userId)
    ensures Render(PollCorrected(InitialView<S, H>(), userId,
                                 [Tick(Ok(Some(s)), Ok(h)), Tick(Failed(f), Ok(h))]))
            == ErrorCard(LoadFailed)
    ensures Render(PollCorrected(InitialView<S, H>(), userId,
                                 [Tick(Ok(Some(s)), Ok(h)), Tick(Failed(f), Ok(h)), Tick(Ok(Some(s)), Ok(h))]))
            == Overview(s)
  {
    CorrectedShowsLatestPoll(InitialView<S, H>(), userId,
                             [Tick(Ok(Some(s)), Ok(h)), Tick(Failed(f), Ok(h))]);
    CorrectedShowsLatestPoll(InitialView<S, H>(), userId,
                             [Tick(Ok(Some(s)), Ok(h)), Tick(Failed(f), Ok(h)), Tick(Ok(Some(s)), Ok(h))]);
  }

  /** A signed amount as displayed: a prefix character and a magnitude. */
  datatype Signed = Signed(prefix: char, magnitude: real)

  function Abs(x: real): real {
    if x >= 0.0 then x else -x
  }

  /** The amount a display stands for. */
  function Value(d: Signed): real {
    if d.prefix == '+' then d.magnitude else -d.magnitude
  }

  /** The total gain/loss display: `+` for a gain, zero included, `-` for a
      loss, followed by the absolute value. */
  function GainLoss(x: real): (d: Signed)
    ensures d.prefix == '+' || d.prefix == '-'
    ensures d.prefix == '+' <==> x >= 0.0
    ensures d.magnitude >= 0.0
    // the display loses nothing: it reads back as the amount
    ensures Value(d) == x
  {
    Signed(if x >= 0.0 then '+' else '-', Abs(x))
  }

  datatype Arrow = Up | Down

  /** One held position as the summary reports it. */
  datatype Position = Position(
    symbol: string,
    quantity: real,
    currentPrice: real,
    change: real,
    percentChange: real)

  /** What a position card shows. */
  datatype PositionCard = PositionCard(
    symbol: string,
    quantity: real,
    price: real,
    arrow: Arrow,
    percent: real)

  /** The arrow follows the sign of `change`, while the percentage shown is
      the magnitude of `percentChange`. */
  function CardOf(p: Position): (c: PositionCard)
    ensures c.arrow == Up <==> p.change >= 0.0
    ensures c.percent >= 0.0 && (c.percent == p.percentChange || c.percent == -p.percentChange)
    ensures c.symbol == p.symbol && c.quantity == p.quantity && c.price == p.currentPrice
  {
    PositionCard(p.symbol, p.quantity, p.currentPrice,
                 if p.change >= 0.0 then Up else Down, Abs(p.percentChange))
  }

  /** The card cannot tell a rise from a fall of the same percentage; only
      `change` picks the arrow. */
  lemma CardHidesPercentSign(p: Position)
    ensures CardOf(p) == CardOf(p.(percentChange := -p.percentChange))
  {
  }

  /** The positions section: one card per position, in order, or the
      "No positions found" placeholder when the list is missing or empty. */
  datatype PositionsPanel = Cards(cards: seq<PositionCard>) | NoPositions

  function PanelOf(positions: Option<seq<Position>>): (r: PositionsPanel)
    ensures r.NoPositions? <==> positions.None? || |positions.value| == 0
    ensures r.Cards? ==> |r.cards| == |positions.value|
    ensures r.Cards? ==> forall i :: 0 <= i < |r.cards| ==> r.cards[i] == CardOf(positions.value[i])
  {
    if positions.None? || |positions.value| == 0 then NoPositions
    else Cards(seq(|positions.value|, i requires 0 <= i < |positions.value| => CardOf(positions.value[i])))
  }
}
