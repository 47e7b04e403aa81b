/** One poller thread as it runs over the map of claims it shares with the others; each method is
    the stretch between two points where other threads may come in. */
module PollerThread {
  import opened Options
  import opened Wire
  import opened Coalesce
  import opened PlatformStore
  import opened TurnProtocol
  import Poller

  /** Seconds of unbroken failure after which a poller reports its stream broken. */
  const POLL_FAILURE_GRACE: int := 30

  class Claims {
    var live: map<StreamId, nat>

    constructor ()
      ensures live == map[]
    {
      live := map[];
    }
  }

  datatype Verdict = KeepOn | Pushed(status: PageStatus, events: seq<Event>) | StandDown | ReportBroken

  class Thread {
    const streamId: StreamId
    const generation: nat
    const cursor: int
    var after: int
    var firstFailure: Option<int>
    ghost var served: seq<Event>
    ghost var phase: Poller.Phase

    ghost function View(): Poller.Feed
      reads this
    {
      Poller.Feed(streamId, cursor, after, served, phase)
    }

    /** Claim the stream for this generation; a running predecessor finds its claim gone. `events` is
        the replay page that ends at the thread's cursor. */
    constructor (claims: Claims, streamId: StreamId, generation: nat, cursor: int, events: seq<Event>)
      modifies claims
      ensures View() == Poller.Feed(streamId, cursor, Poller.ResumeCursor(cursor, events), events, Poller.Idle)
      ensures firstFailure == None && this.generation == generation
      ensures Poller.Owns(claims.live, streamId, generation)
      ensures forall s :: s != streamId ==> (s in claims.live <==> s in old(claims.live))
      ensures forall s :: s != streamId && s in claims.live ==> claims.live[s] == old(claims.live)[s]
    {
      this.streamId := streamId;
      this.generation := generation;
      this.cursor := cursor;
      this.after := Poller.ResumeCursor(cursor, events);
      firstFailure := None;
      served := events;
      phase := Poller.Idle;
      new;
      claims.live := claims.live[streamId := generation];
    }

    /** The check at the top of the loop. */
    method MayPoll(claims: Claims) returns (mine: bool)
      requires phase.Idle?
      modifies this`phase
      ensures mine == Poller.Owns(claims.live, streamId, generation)
      ensures View() == if mine then old(View()) else old(View()).(phase := Poller.Superseded)
    {
      mine := streamId in claims.live && claims.live[streamId] == generation;
      if !mine {
        phase := Poller.Superseded;
      }
    }

    /** A page came back: advance, check the claim again and push, unless there is nothing to say. */
    method OnPage(claims: Claims, page: Page) returns (verdict: Verdict)
      requires phase == Poller.Holding(page)
      modifies this
      ensures verdict.Pushed? ==> Poller.Owns(claims.live, streamId, generation)
      ensures verdict.Pushed? ==> verdict.events == page.events && verdict.status == page.status
      ensures verdict == KeepOn <==> page.events == [] && page.status == Known(Active)
      ensures verdict.StandDown? <==> verdict != KeepOn && !Poller.Owns(claims.live, streamId, generation)
      ensures served == old(served) + (if verdict.Pushed? then verdict.events else [])
      ensures var next := Poller.Pushed(claims.live, generation, old(View()), page);
              View() == if verdict.StandDown? then next.(after := after) else next
      ensures firstFailure == None
    {
      firstFailure := None;
      var terminal, drained := page.status != Known(Active), page.events == [];
      if |page.events| > 0 {
        after := page.events[|page.events| - 1].seqNo;
      }
      verdict := KeepOn;
      if !drained || terminal {
        if streamId !in claims.live || claims.live[streamId] != generation {
          phase := Poller.Superseded;
          return StandDown;
        }
        verdict := Pushed(page.status, page.events);
        served := served + page.events;
      }
      phase := if terminal && drained then Poller.Closing(false) else Poller.Idle;
    }

    /** No page: go on failing until the grace is over, then check the claim and report. */
    method OnFailure(claims: Claims, now: int) returns (verdict: Verdict)
      requires phase.Idle?
      modifies this
      ensures firstFailure == if old(firstFailure).Some? then old(firstFailure) else Some(now)
      ensures var exhausted := now - firstFailure.value >= POLL_FAILURE_GRACE;
              && (verdict == KeepOn <==> !exhausted)
              && (verdict == ReportBroken <==> exhausted && Poller.Owns(claims.live, streamId, generation))
              && View() == old(View()).(phase :=
                   if !exhausted then Poller.Idle
                   else if Poller.Owns(claims.live, streamId, generation) then Poller.Closing(true)
                   else Poller.Superseded)
    {
      if firstFailure.None? {
        firstFailure := Some(now);
      }
      if now - firstFailure.value < POLL_FAILURE_GRACE {
        return KeepOn;
      }
      if streamId !in claims.live || claims.live[streamId] != generation {
        phase := Poller.Superseded;
        return StandDown;
      }
      phase := Poller.Closing(true);
      verdict := ReportBroken;
    }

    /** The way out gives the claim back only if it is still this thread's. */
    method Exit(claims: Claims)
      requires phase.Closing?
      modifies this`phase, claims
      ensures View() == old(View()).(phase := Poller.Exited(old(phase).failed))
      ensures forall s :: s in claims.live <==>
                s in old(claims.live) && !(s == streamId && old(claims.live)[s] == generation)
      ensures forall s :: s in claims.live ==> claims.live[s] == old(claims.live)[s]
    {
      if streamId in claims.live && claims.live[streamId] == generation {
        claims.live := claims.live - {streamId};
      }
      phase := Poller.Exited(phase.failed);
    }
  }
}
