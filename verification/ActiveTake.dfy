/** Frame reservations of one take: `native/src/active_take.rs`. */
module ActiveTake {
  import opened Prelude

  datatype Source = Source(sequence: nat, host: nat, gap: nat)

  datatype Reserved = Reserved(session: string, record: nat, source: nat, host: nat)

  datatype Take = Take(session: string, frameDomain: nat, framesWritten: nat, bytesWritten: nat,
                       pending: Option<nat>, closed: bool)

  function NewTake(session: string): Result<Take> {
    if session == "" then Err(InvalidArgument) else Ok(Take(session, 0, 0, 0, None, false))
  }

  /** Reserved and written frames differ by the one pending frame. */
  predicate TakeOk(t: Take) {
    t.frameDomain == t.framesWritten + (if t.pending.Some? then 1 else 0)
    && (t.pending.Some? ==> t.pending.value == t.framesWritten)
  }

  /** `reserve_frame`. */
  function Reserve(t: Take, source: Source): (Result<Reserved>, Take) {
    if t.closed then (Err(InvalidState), t)
    else if source.gap != 0 then (Err(SourceSequenceGap), t)
    else if t.pending.Some? then (Err(InvalidState), t)
    else if t.frameDomain + 1 > U64_MAX then (Err(CounterOverflow), t)
    else (Ok(Reserved(t.session, t.frameDomain, source.sequence, source.host)),
          t.(frameDomain := t.frameDomain + 1, pending := Some(t.frameDomain)))
  }

  /** `finish_frame`. */
  function FinishFrame(t: Take, frame: Reserved, bytes: nat): (Result<()>, Take) {
    if t.closed then (Err(InvalidState), t)
    else if frame.session != t.session then (Err(InvalidSession), t)
    else if t.pending != Some(frame.record) then (Err(InvalidState), t)
    else if t.framesWritten + 1 > U64_MAX || t.bytesWritten + bytes > U64_MAX then (Err(CounterOverflow), t)
    else (Ok(()), t.(framesWritten := t.framesWritten + 1, bytesWritten := t.bytesWritten + bytes, pending := None))
  }

  /** `finish`. */
  function Finish(t: Take): (Result<Take>, Take) {
    if t.closed || t.pending.Some? then (Err(InvalidState), t)
    else (Ok(t.(closed := true)), t.(closed := true))
  }

  datatype Call = ReserveCall(source: Source) | FinishCall

  function Called(t: Take, c: Call): (bool, Take) {
    match c
    case ReserveCall(source) => (Reserve(t, source).0.Ok?, Reserve(t, source).1)
    case FinishCall => (Finish(t).0.Ok?, Finish(t).1)
  }

  function Calls(t: Take, cs: seq<Call>): (oks: seq<bool>)
    ensures |oks| == |cs|
    decreases cs
  {
    if cs == [] then [] else [Called(t, cs[0]).0] + Calls(Called(t, cs[0]).1, cs[1..])
  }

  /** A frame left pending blocks every later reservation and the end of the take, however often they are tried. */
  lemma {:induction false} PendingFrameBlocksForever(t: Take, cs: seq<Call>)
    requires t.pending.Some?
    ensures forall i :: 0 <= i < |cs| ==> !Calls(t, cs)[i]
    decreases cs
  {
    if cs != [] {
      assert Called(t, cs[0]) == (false, t);
      PendingFrameBlocksForever(t, cs[1..]);
    }
  }

  class ActiveTakeWriter {
    const session: string
    var frameDomain: nat
    var framesWritten: nat
    var bytesWritten: nat
    var pendingFrame: Option<nat>
    var closed: bool

    ghost function View(): Take
      reads this
    {
      Take(session, frameDomain, framesWritten, bytesWritten, pendingFrame, closed)
    }

    ghost predicate Valid()
      reads this
    {
      TakeOk(View())
    }

    constructor (session: string)
      requires session != ""
      ensures Valid() && NewTake(session) == Ok(View())
    {
      this.session := session;
      frameDomain, framesWritten, bytesWritten := 0, 0, 0;
      pendingFrame, closed := None, false;
    }

    /** Reserved frames are numbered 0, 1, 2, …; a refused reservation consumes no number. */
    method ReserveFrame(source: Source) returns (r: Result<Reserved>)
      requires Valid()
      modifies this
      ensures Valid()
      ensures (r, View()) == Reserve(old(View()), source)
      ensures r.Ok? <==> old(!closed && pendingFrame == None && frameDomain < U64_MAX) && source.gap == 0
      ensures r.Ok? ==> r.value == Reserved(session, old(framesWritten), source.sequence, source.host)
      ensures r.Ok? ==> frameDomain == old(frameDomain) + 1 && pendingFrame == Some(old(frameDomain)) && !closed
      ensures r.Ok? ==> framesWritten == old(framesWritten) && bytesWritten == old(bytesWritten)
      ensures r.Err? ==> View() == old(View())
    {
      if closed {
        return Err(InvalidState);
      }
      if source.gap != 0 {
        return Err(SourceSequenceGap);
      }
      if pendingFrame.Some? {
        return Err(InvalidState);
      }
      var record := frameDomain;
      if frameDomain + 1 > U64_MAX {
        return Err(CounterOverflow);
      }
      frameDomain := frameDomain + 1;
      pendingFrame := Some(record);
      return Ok(Reserved(session, record, source.sequence, source.host));
    }

    method FinishPendingFrame(frame: Reserved, bytes: nat) returns (r: Result<()>)
      requires Valid()
      modifies this
      ensures Valid()
      ensures (r, View()) == FinishFrame(old(View()), frame, bytes)
      ensures r.Ok? <==> old(!closed && frame.session == session && pendingFrame == Some(frame.record)
                             && framesWritten < U64_MAX && bytesWritten + bytes <= U64_MAX)
      ensures r.Ok? ==> framesWritten == frameDomain == frame.record + 1 && frameDomain == old(frameDomain)
      ensures r.Ok? ==> bytesWritten == old(bytesWritten) + bytes && pendingFrame == None && !closed
      ensures r.Err? ==> View() == old(View())
    {
      if closed {
        return Err(InvalidState);
      }
      if frame.session != session {
        return Err(InvalidSession);
      }
      if pendingFrame != Some(frame.record) {
        return Err(InvalidState);
      }
      if framesWritten + 1 > U64_MAX {
        return Err(CounterOverflow);
      }
      if bytesWritten + bytes > U64_MAX {
        return Err(CounterOverflow);
      }
      pendingFrame := None;
      framesWritten := framesWritten + 1;
      bytesWritten := bytesWritten + bytes;
      return Ok(());
    }

    /** A take ends only with every reserved frame written. */
    method FinishTake() returns (r: Result<Take>)
      requires Valid()
      modifies this
      ensures Valid()
      ensures (r, View()) == Finish(old(View()))
      ensures r.Ok? <==> old(!closed && pendingFrame == None)
      ensures r.Ok? ==> r.value == View() && frameDomain == framesWritten && closed && pendingFrame == None
      ensures frameDomain == old(frameDomain) && framesWritten == old(framesWritten)
      ensures bytesWritten == old(bytesWritten) && (r.Err? ==> View() == old(View()))
    {
      if closed || pendingFrame.Some? {
        return Err(InvalidState);
      }
      closed := true;
      return Ok(Take(session, frameDomain, framesWritten, bytesWritten, pendingFrame, closed));
    }
  }
}
