/** The `account` session slice: who is signed in, whether a session call is
    in flight, the last error, and whether the session has been checked at
    least once. The three reducers are pure record updates. */
module AccountReducer {
  import opened Values

  datatype Session<U> = Session(
    currentUser: Option<U>,
    loading: bool,
    error: Option<string>,
    sessionChecked: bool)

  /** The three dispatchable actions with their payloads. The slice does not
      validate payloads, so a user or an error may be `null`. */
  datatype Action<U> =
    | SetCurrentUser(user: Option<U>)
    | SetError(message: Option<string>)
    | SetLoading(flag: bool)

  function InitialState<U>(): Session<U> {
    Session(None, false, None, false)
  }

  /** The slice's reducer. */
  function Reduce<U>(s: Session<U>, a: Action<U>): (r: Session<U>)
    // setting the user fixes the whole record, whatever came before
    ensures a.SetCurrentUser? ==> r == Session(a.user, false, None, true)
    ensures a.SetError? ==>
              && r.error == a.message && !r.loading
              && r.currentUser == s.currentUser && r.sessionChecked == s.sessionChecked
    ensures a.SetLoading? ==>
              && r.loading == a.flag
              && r.currentUser == s.currentUser && r.error == s.error
              && r.sessionChecked == s.sessionChecked
    ensures s.sessionChecked ==> r.sessionChecked
  {
    match a
    case SetCurrentUser(u) =>
      s.(currentUser := u, error := None, loading := false, sessionChecked := true)
    case SetError(e) => s.(error := e, loading := false)
    case SetLoading(b) => s.(loading := b)
  }

  /** Dispatching the same action twice is the same as dispatching it once. */
  lemma ReduceIdempotent<U>(s: Session<U>, a: Action<U>)
    ensures Reduce(Reduce(s, a), a) == Reduce(s, a)
  {
  }

  /** The state after dispatching `acts` in order. */
  function Run<U>(s: Session<U>, acts: seq<Action<U>>): Session<U>
    decreases |acts|
  {
    if |acts| == 0 then s else Reduce(Run(s, acts[..|acts| - 1]), acts[|acts| - 1])
  }

  predicate WritesError<U>(a: Action<U>) {
    a.SetCurrentUser? || a.SetError?
  }

  /** The error an error-writing action leaves behind. */
  function ErrorWritten<U>(a: Action<U>): Option<string>
    requires WritesError(a)
  {
    if a.SetCurrentUser? then None else a.message
  }

  /** The session has been checked after a run iff it was checked before or
      the run set a user: nothing ever clears the flag. */
  lemma {:induction false} RunSessionChecked<U>(s: Session<U>, acts: seq<Action<U>>)
    ensures Run(s, acts).sessionChecked <==>
              s.sessionChecked || exists i :: 0 <= i < |acts| && acts[i].SetCurrentUser?
    decreases |acts|
  {
    if |acts| > 0 {
      var pre := acts[..|acts| - 1];
      RunSessionChecked(s, pre);
      assert forall i :: 0 <= i < |pre| ==> pre[i] == acts[i];
      if !acts[|acts| - 1].SetCurrentUser? {
        if exists i :: 0 <= i < |acts| && acts[i].SetCurrentUser? {
          var i :| 0 <= i < |acts| && acts[i].SetCurrentUser?;
          assert i < |pre| && pre[i].SetCurrentUser?;
        }
      }
    }
  }

  /** Without a `SetCurrentUser`, a run keeps the starting user. */
  lemma {:induction false} RunKeepsUser<U>(s: Session<U>, acts: seq<Action<U>>)
    requires forall i :: 0 <= i < |acts| ==> !acts[i].SetCurrentUser?
    ensures Run(s, acts).currentUser == s.currentUser
    decreases |acts|
  {
    if |acts| > 0 {
      var pre := acts[..|acts| - 1];
      assert forall i :: 0 <= i < |pre| ==> pre[i] == acts[i];
      RunKeepsUser(s, pre);
    }
  }

  /** The signed-in user after a run is the payload of the last
      `SetCurrentUser` in it. */
  lemma {:induction false} RunCurrentUser<U>(s: Session<U>, acts: seq<Action<U>>, i: int)
    requires 0 <= i < |acts| && acts[i].SetCurrentUser?
    requires forall j :: i < j < |acts| ==> !acts[j].SetCurrentUser?
    ensures Run(s, acts).currentUser == acts[i].user
    decreases |acts|
  {
    var n := |acts| - 1;
    if i < n {
      var pre := acts[..n];
      assert forall j :: 0 <= j < |pre| ==> pre[j] == acts[j];
      RunCurrentUser(s, pre, i);
      assert !acts[n].SetCurrentUser?;
    }
  }

  /** Without an error-writing action, a run keeps the starting error. */
  lemma {:induction false} RunKeepsError<U>(s: Session<U>, acts: seq<Action<U>>)
    requires forall i :: 0 <= i < |acts| ==> !WritesError(acts[i])
    ensures Run(s, acts).error == s.error
    decreases |acts|
  {
    if |acts| > 0 {
      var pre := acts[..|acts| - 1];
      assert forall i :: 0 <= i < |pre| ==> pre[i] == acts[i];
      RunKeepsError(s, pre);
    }
  }

  /** The error after a run is whatever the last error-writing action left:
      `SetError`'s payload, or null after `SetCurrentUser`. */
  lemma {:induction false} RunError<U>(s: Session<U>, acts: seq<Action<U>>, i: int)
    requires 0 <= i < |acts| && WritesError(acts[i])
    requires forall j :: i < j < |acts| ==> !WritesError(acts[j])
    ensures Run(s, acts).error == ErrorWritten(acts[i])
    decreases |acts|
  {
    var n := |acts| - 1;
    if i < n {
      var pre := acts[..n];
      assert forall j :: 0 <= j < |pre| ==> pre[j] == acts[j];
      RunError(s, pre, i);
      assert !WritesError(acts[n]);
    }
  }

  /** Every action writes the loading flag, so after a non-empty run it is on
      only when the last action was `SetLoading(true)`. */
  lemma RunLoading<U>(s: Session<U>, acts: seq<Action<U>>)
    requires |acts| > 0
    ensures Run(s, acts).loading <==> acts[|acts| - 1] == SetLoading(true)
  {
  }

  /** From the initial state, the session counts as checked exactly when a
      user has been set, and a user is present only if one was set. */
  lemma FromInitialState<U>(acts: seq<Action<U>>)
    ensures Run(InitialState<U>(), acts).sessionChecked <==>
              exists i :: 0 <= i < |acts| && acts[i].SetCurrentUser?
    ensures Run(InitialState<U>(), acts).currentUser.Some? ==>
              exists i :: 0 <= i < |acts| && acts[i].SetCurrentUser? && acts[i].user.Some?
  {
    RunSessionChecked(InitialState<U>(), acts);
    if exists i :: 0 <= i < |acts| && acts[i].SetCurrentUser? {
      LastUserWrite(acts);
      var i :| 0 <= i < |acts| && acts[i].SetCurrentUser? &&
               (forall j :: i < j < |acts| ==> !acts[j].SetCurrentUser?);
      RunCurrentUser(InitialState<U>(), acts, i);
    } else {
      RunKeepsUser(InitialState<U>(), acts);
    }
  }

  /** When some action sets the user, one of them is the last to do so. */
  lemma {:induction false} LastUserWrite<U>(acts: seq<Action<U>>)
    requires exists i :: 0 <= i < |acts| && acts[i].SetCurrentUser?
    ensures exists i :: 0 <= i < |acts| && acts[i].SetCurrentUser? &&
                        (forall j :: i < j < |acts| ==> !acts[j].SetCurrentUser?)
    decreases |acts|
  {
    var n := |acts| - 1;
    if !acts[n].SetCurrentUser? {
      var pre := acts[..n];
      var k :| 0 <= k < |acts| && acts[k].SetCurrentUser?;
      assert k < n && pre[k].SetCurrentUser?;
      LastUserWrite(pre);
      var i :| 0 <= i < |pre| && pre[i].SetCurrentUser? &&
               (forall j :: i < j < |pre| ==> !pre[j].SetCurrentUser?);
      assert acts[i] == pre[i];
      assert forall j :: i < j < |acts| ==> !acts[j].SetCurrentUser? by {
        forall j | i < j < |acts| ensures !acts[j].SetCurrentUser? {
          if j < n { assert acts[j] == pre[j]; }
        }
      }
    }
  }
}
