/**
 * The exec client: a caller and one goroutine per request on two shared channels, under every schedule. The
 * capacities are parameters; the client creates both channels with capacity 1.
 */
module ExecChannels {
  import opened Common

  type Error = Option<string>

  /** How a request goes: it fails before its goroutine starts, or its stream ends with this error or none. */
  datatype Answer = Unsent(reason: string) | Streamed(err: Error)

  function ErrorOf(a: Answer): Error
  {
    match a
    case Unsent(reason) => Some(reason)
    case Streamed(err) => err
  }

  function ErrorsOf(s: seq<Answer>): (r: seq<Error>)
    ensures |r| == |s|
  {
    if s == [] then [] else ErrorsOf(s[..|s| - 1]) + [ErrorOf(s[|s| - 1])]
  }

  /** A goroutine: streaming, about to send its error, about to send completion, or over. */
  datatype Goroutine = Streaming(result: Error) | SendErr(err: Error) | SendComplete | Exited

  datatype Caller = Idle | AwaitComplete | AwaitErr

  datatype State = State(
    errCap: nat, completeCap: nat,
    pending: seq<Answer>, caller: Caller, goroutines: seq<Goroutine>,
    execErr: seq<Error>, execComplete: seq<bool>, returned: seq<Error>)

  datatype Move = CallerMoves | GoroutineMoves(i: nat)

  /** A send goes through if there is room, or hands over to a waiting receiver on an unbuffered channel. */
  predicate CanSendErr(s: State)
  {
    |s.execErr| < s.errCap || (s.errCap == 0 && s.caller == AwaitErr)
  }

  predicate CanSendComplete(s: State)
  {
    |s.execComplete| < s.completeCap || (s.completeCap == 0 && s.caller == AwaitComplete)
  }

  predicate Enabled(s: State, m: Move)
  {
    match m
    case CallerMoves =>
      (match s.caller
       case Idle => s.pending != []
       case AwaitComplete => s.execComplete != []
       case AwaitErr => s.execErr != [])
    case GoroutineMoves(i) =>
      i < |s.goroutines| &&
      match s.goroutines[i]
      case Streaming(_) => true
      case SendErr(_) => CanSendErr(s)
      case SendComplete => CanSendComplete(s)
      case Exited => false
  }

  function Step(s: State, m: Move): State
    requires Enabled(s, m)
  {
    match m
    case CallerMoves => CallerStep(s)
    case GoroutineMoves(i) => GoroutineStep(s, i)
  }

  function CallerStep(s: State): State
    requires Enabled(s, CallerMoves)
  {
    match s.caller
    case Idle =>
      (match s.pending[0]
       case Unsent(reason) => s.(pending := s.pending[1..], returned := s.returned + [Some(reason)])
       case Streamed(err) =>
         s.(pending := s.pending[1..], caller := AwaitComplete, goroutines := s.goroutines + [Streaming(err)]))
    case AwaitComplete => s.(caller := AwaitErr, execComplete := s.execComplete[1..])
    case AwaitErr => s.(caller := Idle, execErr := s.execErr[1..], returned := s.returned + [s.execErr[0]])
  }

  function GoroutineStep(s: State, i: nat): State
    requires Enabled(s, GoroutineMoves(i))
  {
    match s.goroutines[i]
    case Streaming(result) => s.(goroutines := s.goroutines[i := SendErr(result)])
    case SendErr(err) =>
      if s.errCap == 0 then s.(goroutines := s.goroutines[i := SendComplete], caller := Idle, returned := s.returned + [err])
      else s.(goroutines := s.goroutines[i := SendComplete], execErr := s.execErr + [err])
    case SendComplete =>
      if s.completeCap == 0 then s.(goroutines := s.goroutines[i := Exited], caller := AwaitErr)
      else s.(goroutines := s.goroutines[i := Exited], execComplete := s.execComplete + [true])
  }

  /** An initialised client with requests to make. */
  function Initial(errCap: nat, completeCap: nat, requests: seq<Answer>): State
  {
    State(errCap, completeCap, requests, Idle, [], [], [], [])
  }

  predicate Finished(s: State)
  {
    s.caller == Idle && s.pending == []
  }

  /** The schedule `ms` is possible from `s` and leads to `s'`. */
  predicate Leads(s: State, ms: seq<Move>, s': State)
    decreases ms
  {
    if ms == [] then s == s' else Enabled(s, ms[0]) && Leads(Step(s, ms[0]), ms[1..], s')
  }

  /** The first `n` goroutines are over. */
  predicate ExitedBelow(gs: seq<Goroutine>, n: int)
  {
    forall i | 0 <= i < n && i < |gs| :: gs[i] == Exited
  }

  /** The request being served, if the caller is waiting. */
  predicate Serving(s: State, err: Error)
  {
    && s.goroutines != [] && ExitedBelow(s.goroutines, |s.goroutines| - 1)
    && var g := s.goroutines[|s.goroutines| - 1];
    match s.caller
    case Idle => false
    case AwaitComplete =>
      (match g
       case Streaming(r) => r == err && s.execErr == [] && s.execComplete == []
       case SendErr(e) => e == err && s.execErr == [] && s.execComplete == []
       case SendComplete => s.execErr == [err] && s.execComplete == []
       case Exited => s.execErr == [err] && s.execComplete == [true])
    case AwaitErr => g == Exited && s.execErr == [err] && s.execComplete == []
  }

  /** Requests before the current one have returned their own errors, and nothing is left over from them. */
  predicate Inv(s: State, requests: seq<Answer>)
  {
    && s.errCap >= 1
    && |s.returned| + |s.pending| + (if s.caller == Idle then 0 else 1) == |requests|
    && s.pending == requests[|requests| - |s.pending|..]
    && s.returned == ErrorsOf(requests[..|s.returned|])
    && (s.caller == Idle ==> s.execErr == [] && s.execComplete == [] && ExitedBelow(s.goroutines, |s.goroutines|))
    && (s.caller != Idle ==> requests[|s.returned|].Streamed? && Serving(s, requests[|s.returned|].err))
  }

  /** Steps left. */
  function Measure(s: State): nat
  {
    6 * |s.pending| + (match s.caller case Idle => 0 case AwaitComplete => 2 case AwaitErr => 1) +
    (if s.caller != AwaitComplete || s.goroutines == [] then 0 else
       match s.goroutines[|s.goroutines| - 1]
       case Streaming(_) => 3
       case SendErr(_) => 2
       case SendComplete => 1
       case Exited => 0)
  }

  lemma ReturnKeeps(s: State, requests: seq<Answer>)
    requires |s.returned| < |requests| && s.returned == ErrorsOf(requests[..|s.returned|])
    ensures s.returned + [ErrorOf(requests[|s.returned|])] == ErrorsOf(requests[..|s.returned| + 1])
  {
    var n := |s.returned|;
    assert requests[..n + 1][..n] == requests[..n];
  }

  lemma CallerKeeps(s: State, requests: seq<Answer>)
    requires Inv(s, requests) && Enabled(s, CallerMoves)
    ensures Inv(CallerStep(s), requests) && Measure(CallerStep(s)) < Measure(s)
  {
    if |s.returned| < |requests| {
      ReturnKeeps(s, requests);
    }
    if s.caller == Idle {
      assert s.pending[1..] == requests[|requests| - |s.pending[1..]|..];
    }
  }

  lemma GoroutineKeeps(s: State, requests: seq<Answer>, i: nat)
    requires Inv(s, requests) && Enabled(s, GoroutineMoves(i))
    ensures Inv(GoroutineStep(s, i), requests) && Measure(GoroutineStep(s, i)) < Measure(s)
  {
  }

  lemma {:induction false} RunKeeps(s: State, ms: seq<Move>, s': State, requests: seq<Answer>)
    requires Inv(s, requests) && Leads(s, ms, s')
    ensures Inv(s', requests) && |ms| + Measure(s') <= Measure(s)
    decreases ms
  {
    if ms != [] {
      if ms[0].CallerMoves? {
        CallerKeeps(s, requests);
      } else {
        GoroutineKeeps(s, requests, ms[0].i);
      }
      RunKeeps(Step(s, ms[0]), ms[1..], s', requests);
    }
  }

  lemma Progress(s: State, requests: seq<Answer>)
    requires Inv(s, requests) && !Finished(s)
    ensures exists m :: Enabled(s, m)
  {
    if Enabled(s, CallerMoves) {
    } else {
      assert Enabled(s, GoroutineMoves(|s.goroutines| - 1));
    }
  }

  lemma InitialInv(errCap: nat, completeCap: nat, requests: seq<Answer>)
    requires errCap >= 1
    ensures Inv(Initial(errCap, completeCap, requests), requests)
  {
  }

  /** What holds in every state reached from one that satisfies the invariant. */
  lemma Outcome(s0: State, ms: seq<Move>, s: State, requests: seq<Answer>)
    requires Inv(s0, requests) && Leads(s0, ms, s)
    ensures |ms| <= Measure(s0)
    ensures Finished(s) || exists m :: Enabled(s, m)
    ensures s.caller == Idle ==> s.execErr == [] && s.execComplete == []
    ensures |s.returned| <= |requests| && s.returned == ErrorsOf(requests[..|s.returned|])
    ensures Finished(s) ==> s.returned == ErrorsOf(requests)
  {
    RunKeeps(s0, ms, s, requests);
    Settled(s, requests);
  }

  /**
   * With room for one error, no schedule of any sequence of requests deadlocks or runs for ever; between calls
   * both channels are empty and every call has returned its own request's error.
   */
  lemma {:induction false} EverySchedule(errCap: nat, completeCap: nat, requests: seq<Answer>, ms: seq<Move>, s: State)
    requires errCap >= 1 && Leads(Initial(errCap, completeCap, requests), ms, s)
    ensures |ms| <= 6 * |requests|
    ensures Finished(s) || exists m :: Enabled(s, m)
    ensures s.caller == Idle ==> s.execErr == [] && s.execComplete == []
    ensures |s.returned| <= |requests| && s.returned == ErrorsOf(requests[..|s.returned|])
    ensures Finished(s) ==> s.returned == ErrorsOf(requests)
  {
    hide Inv, Leads, ErrorsOf, Enabled;
    var s0 := Initial(errCap, completeCap, requests);
    InitialInv(errCap, completeCap, requests);
    Outcome(s0, ms, s, requests);
  }

  lemma Settled(s: State, requests: seq<Answer>)
    requires Inv(s, requests)
    ensures Finished(s) || exists m :: Enabled(s, m)
    ensures Finished(s) ==> s.returned == ErrorsOf(requests)
  {
    if !Finished(s) {
      Progress(s, requests);
    } else {
      assert requests[..|s.returned|] == requests;
    }
  }

  ghost predicate Deadlocked(s: State)
  {
    !Finished(s) && forall m :: !Enabled(s, m)
  }

  /** An unbuffered error channel would deadlock on the first streamed request: the buffer is what is needed. */
  lemma UnbufferedDeadlocks(completeCap: nat, requests: seq<Answer>) returns (ms: seq<Move>, s: State)
    requires requests != [] && requests[0].Streamed?
    ensures Leads(Initial(0, completeCap, requests), ms, s) && Deadlocked(s)
  {
    var s0 := Initial(0, completeCap, requests);
    var s1 := Step(s0, CallerMoves);
    s := Step(s1, GoroutineMoves(0));
    ms := [CallerMoves, GoroutineMoves(0)];
    assert ms[1..] == [GoroutineMoves(0)] && ms[1..][1..] == [];
    assert Leads(s, [], s);
    assert Leads(s1, ms[1..], s);
  }

  /**
   * The client itself. `schedule` is any scheduler: it picks who moves next, and if that one is blocked the
   * other moves.
   */
  class KubeExecClient {
    var execErr: seq<Error>
    var execComplete: seq<bool>
    const schedule: nat -> bool

    constructor (schedule: nat -> bool)
      ensures this.schedule == schedule
    {
      this.schedule := schedule;
      new;
    }

    /**
     * Opens the channels, then builds the client configuration: in the cluster, or from the home directory, or
     * not at all. Its error is returned, and the channels are open and empty all the same.
     */
    method InitKubeGoClient(inCluster: bool, home: bool, build: bool -> Error) returns (err: Error)
      modifies this
      ensures execErr == [] && execComplete == []
      ensures err.Some? <==> (inCluster || home) && build(inCluster).Some?
      ensures err.Some? ==> err == build(inCluster)
    {
      execComplete := [];
      execErr := [];
      if inCluster {
        return build(true);
      } else if home {
        return build(false);
      }
      err := None;
    }

    /** Returns the request's own error and leaves both channels empty, whatever the schedule. */
    method MakeRequest(request: Answer) returns (err: Error)
      requires execErr == [] && execComplete == []
      modifies this
      ensures err == ErrorOf(request)
      ensures execErr == [] && execComplete == []
    {
      if request.Unsent? {
        return Some(request.reason);
      }
      var goroutine := Streaming(request.err);
      var caller := AwaitComplete;
      var tick := 0;
      err := None;
      while caller != Idle
        invariant caller == Idle ==> err == request.err && execErr == [] && execComplete == []
        invariant caller == AwaitErr ==> goroutine == Exited && execErr == [request.err] && execComplete == []
        invariant caller == AwaitComplete ==>
                    match goroutine
                    case Streaming(r) => r == request.err && execErr == [] && execComplete == []
                    case SendErr(e) => e == request.err && execErr == [] && execComplete == []
                    case SendComplete => execErr == [request.err] && execComplete == []
                    case Exited => execErr == [request.err] && execComplete == [true]
        decreases match caller case Idle => 0 case AwaitErr => 1 case AwaitComplete => 2,
                  match goroutine case Streaming(_) => 3 case SendErr(_) => 2 case SendComplete => 1 case Exited => 0
      {
        var callerReady := if caller == AwaitComplete then |execComplete| > 0 else |execErr| > 0;
        var goroutineReady :=
          match goroutine
          case Streaming(_) => true
          case SendErr(_) => |execErr| < 1
          case SendComplete => |execComplete| < 1
          case Exited => false;
        if callerReady && (schedule(tick) || !goroutineReady) {
          if caller == AwaitComplete {
            execComplete := execComplete[1..];
            caller := AwaitErr;
          } else {
            err := execErr[0];
            execErr := execErr[1..];
            caller := Idle;
          }
        } else {
          assert goroutineReady;
          match goroutine
          case Streaming(result) =>
            goroutine := SendErr(result);
          case SendErr(e) =>
            execErr := execErr + [e];
            goroutine := SendComplete;
          case SendComplete =>
            execComplete := execComplete + [true];
            goroutine := Exited;
          case Exited =>
        }
        tick := tick + 1;
      }
    }
  }
}
