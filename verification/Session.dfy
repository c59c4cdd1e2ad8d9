/** A host's whole script in TCP mode under faults: over any number of connection losses either
    everything can still be answered and the device finish, or exactly one transaction is lost
    and nothing happens any more. */
module Session {
  import opened Bytes
  import opened Packets
  import opened Reconnect
  import opened Recovery
  import C = Channel
  import R = ClosedRun

  /** A script whose requests are numbered upwards. */
  predicate Numbered(c: R.Script) {
    && R.WellFormed(c)
    && forall i, k :: 0 <= i < k < |c.requests| ==> Number(c.requests[i]) < Number(c.requests[k])
  }

  lemma TestHostNumbered(n: uint32)
    requires n < 0xffff_ffff
    ensures Numbered(R.TestHost(n))
  {
    R.TestHostWellFormed(n);
    var c := R.TestHost(n);
    forall i | 0 <= i < n
      ensures Number(c.requests[i]) == i + 1
    {
      EncodeDecode(R.TestPacket(i));
    }
  }

  /** Everything the host sends. */
  function All(c: R.Script): seq<Image> {
    c.requests + [c.stop]
  }

  predicate OnCue(c: R.Script, s: State, e: Event) {
    e.Ask? ==> |s.asked| < |All(c)| && e.request == All(c)[|s.asked|]
  }

  /** A run on which the host follows the script. */
  predicate Plays(c: R.Script, s: State, es: seq<Event>)
    decreases |es|
  {
    es == [] || (Can(s, es[0]) && OnCue(c, s, es[0]) && Plays(c, Next(s, es[0]), es[1..]))
  }

  lemma {:induction false} PlaysRuns(c: R.Script, s: State, es: seq<Event>)
    requires Plays(c, s, es)
    ensures Runs(s, es)
    decreases |es|
  {
    if es != [] {
      PlaysRuns(c, Next(s, es[0]), es[1..]);
    }
  }

  /** As far as the host has got in the script. */
  predicate SoFar(c: R.Script, s: State) {
    s.asked <= All(c)
  }

  lemma {:induction false} PlaysOn(c: R.Script, s: State, es: seq<Event>)
    requires Plays(c, s, es) && Runs(s, es) && SoFar(c, s)
    ensures SoFar(c, After(s, es))
    decreases |es|
  {
    if es != [] {
      PlaysOn(c, Next(s, es[0]), es[1..]);
    }
  }

  lemma PlaysCons(c: R.Script, s: State, e: Event, rest: seq<Event>)
    requires Can(s, e) && OnCue(c, s, e) && Plays(c, Next(s, e), rest)
    ensures Plays(c, s, [e] + rest)
  {
    assert ([e] + rest)[1..] == rest;
  }

  lemma {:induction false} AskedGrows(s: State, es: seq<Event>)
    requires Runs(s, es)
    ensures |After(s, es).asked| >= |s.asked|
    decreases |es|
  {
    if es != [] {
      AskedGrows(Next(s, es[0]), es[1..]);
    }
  }

  /** While the host only waits it is on script. */
  lemma {:induction false} WaitingPlays(c: R.Script, s: State, es: seq<Event>)
    requires Runs(s, es) && |After(s, es).asked| == |s.asked|
    ensures Plays(c, s, es)
    decreases |es|
  {
    if es != [] {
      AskedGrows(Next(s, es[0]), es[1..]);
      WaitingPlays(c, Next(s, es[0]), es[1..]);
    }
  }

  /** All requests answered, the stop packet sent, and the device finished. */
  predicate Completed(c: R.Script, s: State) {
    && s.asked == All(c) && |s.got| == |c.requests| && s.device.Finished?
    && forall i :: 0 <= i < |s.got| ==> s.got[i] == Reply(c.requests[i])
  }

  ghost predicate Completable(c: R.Script, s: State) {
    exists es :: Plays(c, s, es) && Runs(s, es) && Completed(c, After(s, es))
  }

  /** The transaction under way, if there is one, is not lost. */
  ghost predicate Found(c: R.Script, s: State, u: C.Place, d: C.Place) {
    SoFar(c, s) && Inv(s, u, d) && !Lost(s, u, d) && ControlOk(s) && ReadersOk(s) && TrafficOk(s)
  }

  lemma CompletableCons(c: R.Script, s: State, e: Event)
    requires Can(s, e) && OnCue(c, s, e) && Completable(c, Next(s, e))
    ensures Completable(c, s)
  {
    var es :| Plays(c, Next(s, e), es) && Runs(Next(s, e), es) && Completed(c, After(Next(s, e), es));
    PlaysCons(c, s, e, es);
    RunsCons(s, e, es);
  }

  lemma {:induction false} CompletableBefore(c: R.Script, s: State, es: seq<Event>)
    requires Plays(c, s, es) && Runs(s, es) && Completable(c, After(s, es))
    ensures Completable(c, s)
    decreases |es|
  {
    if es != [] {
      CompletableBefore(c, Next(s, es[0]), es[1..]);
      CompletableCons(c, s, es[0]);
    }
  }

  /** The stop packet is never answered. */
  lemma StopIsLast(c: R.Script, s: State)
    requires Numbered(c) && SoFar(c, s) && Histories(s)
    ensures |s.got| <= |c.requests|
    ensures |s.asked| == |c.requests| + 1 ==> |s.got| == |c.requests|
  {
    assert forall k :: 0 <= k < |s.got| ==> s.asked[k] == All(c)[k] && !IsStop(All(c)[k]);
    assert IsStop(All(c)[|c.requests|]);
  }

  /** The host can go on to the next entry of the script. */
  lemma MayAskNext(c: R.Script, s: State)
    requires Numbered(c) && SoFar(c, s) && Histories(s) && |s.asked| == |s.got|
    ensures |s.asked| <= |c.requests| && MayAsk(s, All(c)[|s.asked|])
  {
    StopIsLast(c, s);
    forall i | 0 <= i < |s.asked| && |s.asked| < |c.requests|
      ensures Number(s.asked[i]) < Number(All(c)[|s.asked|])
    {
      assert s.asked[i] == c.requests[i];
    }
  }

  lemma StepOnCue(c: R.Script, s: State, e: Event)
    requires SoFar(c, s) && Can(s, e) && OnCue(c, s, e)
    ensures SoFar(c, Next(s, e))
  {
  }

  lemma StepFound(c: R.Script, s: State, u: C.Place, d: C.Place, e: Event)
    requires Found(c, s, u, d) && Can(s, e) && OnCue(c, s, e) && !Loses(s, u, d, e)
    ensures Found(c, Next(s, e), NextUp(s, u, e), NextDown(s, d, e))
  {
    StepOnCue(c, s, e);
    StepControl(s, e);
    StaysFound(s, u, d, e);
  }

  /** What has been got through is not lost. */
  lemma GetsThrough(c: R.Script, s: State, u: C.Place, d: C.Place)
    returns (es: seq<Event>, v: C.Place, f: C.Place)
    requires Found(c, s, u, d) && |s.asked| == |s.got| + 1
    ensures Runs(s, es) && Plays(c, s, es) && Through(s, After(s, es)) && Found(c, After(s, es), v, f)
  {
    FoundIsAnswerable(s, u, d);
    es :| Runs(s, es) && Through(s, After(s, es));
    WaitingPlays(c, s, es);
    v, f := RunInv(s, u, d, es);
    RunControl(s, es);
    ThroughIsFound(s, After(s, es), v, f);
  }

  lemma ThroughIsFound(s: State, t: State, v: C.Place, f: C.Place)
    requires Through(s, t) && |s.asked| == |s.got| + 1 && Inv(t, v, f)
    ensures !Lost(t, v, f)
  {
  }

  lemma FinishedIsCompleted(c: R.Script, s: State, u: C.Place, d: C.Place)
    requires Numbered(c) && Found(c, s, u, d) && s.device.Finished?
    ensures Completed(c, s)
  {
    var n := |s.asked| - 1;
    assert IsStop(s.asked[n]) && s.asked[n] == All(c)[n];
    assert n == |c.requests|;
  }

  /** From every state in which nothing is lost the rest of the script can be played to its end. */
  lemma {:induction false} FoundIsCompletable(c: R.Script, s: State, u: C.Place, d: C.Place)
    requires Numbered(c) && Found(c, s, u, d)
    ensures Completable(c, s)
    decreases 2 * |c.requests| + 2 - |s.asked| - |s.got|
  {
    StopIsLast(c, s);
    if s.device.Finished? {
      FinishedIsCompleted(c, s, u, d);
      CompletedIsCompletable(c, s);
    } else if |s.asked| == |s.got| {
      MayAskNext(c, s);
      var e := Ask(All(c)[|s.asked|]);
      StepFound(c, s, u, d, e);
      FoundIsCompletable(c, Next(s, e), NextUp(s, u, e), NextDown(s, d, e));
      CompletableCons(c, s, e);
    } else {
      var es, v, f := GetsThrough(c, s, u, d);
      var t := After(s, es);
      if t.device.Finished? {
        FinishedIsCompleted(c, t, v, f);
        CompletedIsCompletable(c, t);
      } else {
        FoundIsCompletable(c, t, v, f);
      }
      CompletableBefore(c, s, es);
    }
  }

  lemma CompletedIsCompletable(c: R.Script, s: State)
    requires Completed(c, s)
    ensures Completable(c, s)
  {
    assert Plays(c, s, []) && Runs(s, []) && After(s, []) == s;
  }

  /** Nothing comes of the script any more: no request is asked, no reply got, and the device
      does not finish. */
  ghost predicate Standstill(s: State) {
    forall es :: Runs(s, es) ==>
      After(s, es).asked == s.asked && After(s, es).got == s.got && !After(s, es).device.Finished?
  }

  lemma LostIsStandstill(s: State, u: C.Place, d: C.Place)
    requires Inv(s, u, d) && Lost(s, u, d) && ControlOk(s) && ReadersOk(s) && TrafficOk(s)
    ensures Standstill(s)
  {
    forall es | Runs(s, es)
      ensures After(s, es).asked == s.asked && After(s, es).got == s.got && !After(s, es).device.Finished?
    {
      LostForEver(s, u, d, es);
    }
  }

  /** What has become of the script so far. */
  lemma Answered(c: R.Script, s: State, u: C.Place, d: C.Place)
    requires Numbered(c) && SoFar(c, s) && Inv(s, u, d)
    ensures |s.got| <= |c.requests| && |s.got| <= |s.asked| <= |s.got| + 1
    ensures forall i :: 0 <= i < |s.got| ==> s.got[i] == Reply(c.requests[i])
    ensures |s.asked| == |c.requests| + 1 ==> |s.got| == |c.requests|
  {
    StopIsLast(c, s);
    forall i | 0 <= i < |s.got|
      ensures s.got[i] == Reply(c.requests[i])
    {
      assert s.asked[i] == All(c)[i];
    }
  }

  /** The outcome of a script, in every state of every run, over any number of connection losses:
      the replies got are the answers to the requests in order; the stop packet is sent only when
      all requests are answered; if nothing is lost the script can be played to its end; and if
      something is lost, it is the one transaction the host waits for, and nothing is asked, got
      or finished any more. */
  lemma Outcome(c: R.Script, s: State, es: seq<Event>)
    requires Numbered(c) && Start(s) && Plays(c, s, es)
    ensures Runs(s, es)
    ensures var t := After(s, es);
            && SoFar(c, t) && |t.got| <= |c.requests|
            && (forall i :: 0 <= i < |t.got| ==> t.got[i] == Reply(c.requests[i]))
            && (|t.asked| == |c.requests| + 1 ==> |t.got| == |c.requests|)
            && (Completable(c, t) <==> !Abandoned(t))
            && (Abandoned(t) ==> |t.asked| == |t.got| + 1 && Standstill(t))
  {
    PlaysRuns(c, s, es);
    PlaysOn(c, s, es);
    var t := After(s, es);
    var u, d := RunOk(s, es);
    NotAlsoLost(t, u, d);
    Answered(c, t, u, d);
    if Lost(t, u, d) {
      LostIsStandstill(t, u, d);
      StandstillIsNotCompletable(c, t);
      LossIsFinal(s, es, []);
    } else {
      FoundIsCompletable(c, t, u, d);
    }
  }

  lemma StandstillIsNotCompletable(c: R.Script, s: State)
    requires Standstill(s)
    ensures !Completable(c, s)
  {
    forall es | Runs(s, es)
      ensures !Completed(c, After(s, es))
    {
      assert !After(s, es).device.Finished?;
    }
  }
}
