/** The trace capture handle and its life cycle (diagnostics/tracing.py). */
module TraceCapture {
  import opened Text
  import M = ManagedContext

  datatype State = Active | Stopped | Discarded | Failed

  /** What the calls inside one `stop` or `discard` raise.  `persist` is None unless the policy
      asks for the artifact's metadata to be stored. */
  datatype Call =
    | Stop(temp: Option<M.Exc>, native: Option<M.Exc>, write: Option<M.Exc>, persist: Option<Option<M.Exc>>)
    | Discard(temp: Option<M.Exc>, native: Option<M.Exc>)

  /** The handle with what it has done to the outside: native `stop_tracing` calls, and
      artifact writes. */
  datatype Progress = Progress(state: State, stops: nat, writes: nat)

  function CaptureError(text: string): M.Exc { M.Exc(M.Ordinary, "DiagnosticCaptureError", text) }

  function NameOf(state: State): string {
    match state
    case Active => "active"
    case Stopped => "stopped"
    case Discarded => "discarded"
    case Failed => "failed"
  }

  /** What a call of the native trace or of the recorder surfaces as: an ordinary exception as
      a capture error with nothing but its class name, any other unchanged. */
  predicate SurfacesAs(raised: Option<M.Exc>, e: M.Exc, text: string) {
    raised == Some(if e.kind.Control? || e.kind.Bare? then e
                   else M.Exc(M.Ordinary, "DiagnosticCaptureError", text + e.name))
  }

  /** An ordinary exception fails the capture; any other leaves the state alone. */
  function Broken(h: Progress, e: M.Exc): Progress {
    if e.kind.Project? || e.kind.Ordinary? then h.(state := Failed) else h
  }

  /** The handle after one call. */
  function After(h: Progress, suffixValid: bool, call: Call): Progress {
    if !h.state.Active? || (call.Stop? && !suffixValid) || call.temp.Some? then h
    else
      var stopping := h.(stops := h.stops + 1);
      if call.native.Some? then Broken(stopping, call.native.value)
      else if call.Discard? then stopping.(state := Discarded)
      else
        var written := stopping.(writes := h.writes + 1);
        if call.write.Some? then Broken(written, call.write.value)
        else if call.persist.Some? && call.persist.value.Some? then written
        else written.(state := Stopped)
  }

  class TraceCaptureHandle {
    const suffixValid: bool
    var state: State
    var stops: nat
    var writes: nat

    constructor (suffixValid: bool)
      ensures this.suffixValid == suffixValid && Done() == Progress(Active, 0, 0)
    {
      this.suffixValid := suffixValid;
      state, stops, writes := Active, 0, 0;
    }

    function Done(): Progress
      reads this
    {
      Progress(state, stops, writes)
    }

    method Stop(temp: Option<M.Exc>, native: Option<M.Exc>, write: Option<M.Exc>, persist: Option<Option<M.Exc>>)
      returns (raised: Option<M.Exc>)
      modifies this
      ensures Done() == After(old(Done()), suffixValid, Call.Stop(temp, native, write, persist))
      ensures raised.None? <==> old(state).Active? && state.Stopped?
      ensures
        if !old(state).Active? then
          raised == Some(M.Exc(M.Ordinary, "DiagnosticCaptureError", "cannot stop trace in state '" + NameOf(old(state)) + "'"))
        else if !suffixValid then raised.Some? && raised.value.kind.Ordinary?
        else if temp.Some? then raised == temp
        else if native.Some? then SurfacesAs(raised, native.value, "trace stop failed: ")
        else if write.Some? then SurfacesAs(raised, write.value, "trace artifact write failed: ")
        else raised == if persist.Some? then persist.value else None
    {
      if !state.Active? { return Some(CaptureError("cannot stop trace in state '" + NameOf(state) + "'")); }
      if !suffixValid { return Some(M.Exc(M.Ordinary, "DiagnosticCaptureError", "trace suffix is invalid")); }
      if temp.Some? { return temp; }
      stops := stops + 1;
      if native.Some? {
        if M.IsException(native.value) {
          state := Failed;
          return Some(CaptureError("trace stop failed: " + native.value.name));
        }
        return native;
      }
      writes := writes + 1;
      if write.Some? {
        if M.IsException(write.value) {
          state := Failed;
          return Some(CaptureError("trace artifact write failed: " + write.value.name));
        }
        return write;
      }
      if persist.Some? && persist.value.Some? { return persist.value; }
      state := Stopped;
      raised := None;
    }

    method Discard(temp: Option<M.Exc>, native: Option<M.Exc>) returns (raised: Option<M.Exc>)
      modifies this
      ensures Done() == After(old(Done()), suffixValid, Call.Discard(temp, native))
      ensures raised.None? <==> !old(state).Active? || state.Discarded?
      ensures
        if !old(state).Active? then raised.None?
        else if temp.Some? then raised == temp
        else if native.Some? then SurfacesAs(raised, native.value, "trace discard failed: ")
        else raised.None?
    {
      if !state.Active? { return None; }
      if temp.Some? { return temp; }
      stops := stops + 1;
      if native.Some? {
        if M.IsException(native.value) {
          state := Failed;
          return Some(CaptureError("trace discard failed: " + native.value.name));
        }
        return native;
      }
      state := Discarded;
      raised := None;
    }
  }

  // ------------------------------------------------------------------
  // Over any sequence of calls
  // ------------------------------------------------------------------

  function Run(suffixValid: bool, calls: seq<Call>): Progress {
    if calls == [] then Progress(Active, 0, 0)
    else After(Run(suffixValid, calls[..|calls| - 1]), suffixValid, calls[|calls| - 1])
  }

  predicate Surfaces(e: Option<M.Exc>) { e.Some? && !M.IsException(e.value) }

  /** A call that may stop the native trace and still leave the handle active: something other
      than an ordinary exception gets out of the stop or the write, or storing the metadata
      fails. */
  predicate Lapses(call: Call) {
    && call.temp.None?
    && match call
       case Discard(_, native) => Surfaces(native)
       case Stop(_, native, write, persist) =>
         || Surfaces(native)
         || (native.None? && Surfaces(write))
         || (native.None? && write.None? && persist.Some? && persist.value.Some?)
  }

  /** Exactly those calls do. */
  lemma StaysActiveExactly(h: Progress, suffixValid: bool, call: Call)
    requires h.state.Active?
    ensures var h' := After(h, suffixValid, call);
            h'.stops > h.stops && h'.state.Active? <==> Lapses(call) && (call.Stop? ==> suffixValid)
  {
  }

  function CountLapses(calls: seq<Call>): nat {
    if calls == [] then 0
    else CountLapses(calls[..|calls| - 1]) + (if Lapses(calls[|calls| - 1]) then 1 else 0)
  }

  /** Over every sequence of calls: each native stop but the last one is one of those calls, a
      write only follows a stop, and what a terminal state says is what was done. */
  lemma {:induction false} StopsAreBounded(suffixValid: bool, calls: seq<Call>)
    ensures var h := Run(suffixValid, calls);
            && h.writes <= h.stops <= CountLapses(calls) + (if h.state.Active? then 0 else 1)
            && (h.state.Stopped? ==> h.writes >= 1) && (h.state.Discarded? ==> h.writes < h.stops)
  {
    if calls != [] { StopsAreBounded(suffixValid, calls[..|calls| - 1]); }
  }

  /** A call that gets as far as the native stop when the handle is active. */
  predicate Reaches(suffixValid: bool, call: Call) { call.temp.None? && (call.Stop? ==> suffixValid) }

  /** How many calls of a sequence reach it, and which is the first. */
  function Reaching(suffixValid: bool, calls: seq<Call>): nat {
    if calls == [] then 0
    else Reaching(suffixValid, calls[..|calls| - 1]) + (if Reaches(suffixValid, calls[|calls| - 1]) then 1 else 0)
  }

  function FirstReaching(suffixValid: bool, calls: seq<Call>): (i: nat)
    ensures i <= |calls| && (forall m :: 0 <= m < i ==> !Reaches(suffixValid, calls[m]))
    ensures i < |calls| ==> Reaches(suffixValid, calls[i])
    ensures i < |calls| <==> Reaching(suffixValid, calls) > 0
  {
    if calls == [] then 0
    else
      var k := FirstReaching(suffixValid, calls[..|calls| - 1]);
      if k < |calls| - 1 || Reaches(suffixValid, calls[|calls| - 1]) then k else |calls|
  }

  /** The native trace is stopped at all exactly when some call reaches it, and more than once
      exactly when the first call that reaches it lapses and another one does too. */
  lemma {:induction false} StopsTwiceExactly(suffixValid: bool, calls: seq<Call>)
    ensures var h, i, n := Run(suffixValid, calls), FirstReaching(suffixValid, calls), Reaching(suffixValid, calls);
            && (h.stops == 0 <==> n == 0)
            && (h.stops >= 2 <==> n >= 2 && Lapses(calls[i]))
            && (n == 0 ==> h.state.Active?)
            && (n > 0 && !Lapses(calls[i]) ==> !h.state.Active?)
            && (n == 1 && Lapses(calls[i]) ==> h.state.Active?)
  {
    if calls != [] {
      StopsTwiceExactly(suffixValid, calls[..|calls| - 1]);
      var i := FirstReaching(suffixValid, calls);
      assert i < |calls| - 1 ==> calls[..|calls| - 1][i] == calls[i];
    }
  }

  /** A terminal state is final: nothing is stopped or written again. */
  lemma {:induction false} TerminalIsFinal(suffixValid: bool, calls: seq<Call>, n: nat)
    requires n <= |calls| && !Run(suffixValid, calls[..n]).state.Active?
    ensures Run(suffixValid, calls) == Run(suffixValid, calls[..n])
    decreases |calls|
  {
    if n < |calls| {
      var before := calls[..|calls| - 1];
      assert before[..n] == calls[..n];
      TerminalIsFinal(suffixValid, before, n);
    } else {
      assert calls[..n] == calls;
    }
  }

  predicate Ordinary(call: Call) {
    && (call.native.Some? ==> M.IsException(call.native.value))
    && (call.Stop? && call.write.Some? ==> M.IsException(call.write.value))
    && (call.Stop? ==> call.persist.None?)
  }

  /** With ordinary exceptions anywhere and metadata persistence off: the native trace is
      stopped at most once, at most one artifact is written, and the handle is active exactly
      until then. */
  lemma {:induction false} OrdinaryCallsStopOnce(suffixValid: bool, calls: seq<Call>)
    requires forall i :: 0 <= i < |calls| ==> Ordinary(calls[i])
    ensures var h := Run(suffixValid, calls);
            && h.writes <= h.stops <= 1
            && (h.state.Active? <==> h.stops == 0)
            && (h.state.Stopped? ==> h.writes == 1) && (h.state.Discarded? ==> h.writes == 0)
  {
    if calls != [] { OrdinaryCallsStopOnce(suffixValid, calls[..|calls| - 1]); }
  }

  /** With persistence on, one failure to store the metadata is enough for a second native
      stop and a second artifact. */
  lemma PersistFailureStopsTwice(e: M.Exc)
    ensures var failing := Call.Stop(None, None, None, Some(Some(e)));
            var h := Run(true, [failing, failing]);
            h == Progress(Active, 2, 2)
  {
    var failing := Call.Stop(None, None, None, Some(Some(e)));
    assert [failing, failing][..1] == [failing] && [failing][..0] == [];
    assert Run(true, [failing]) == Progress(Active, 1, 1);
  }
}
