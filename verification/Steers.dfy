/** Follow-ups queued for a live agent turn: queueing, reclaiming, draining. */
module Steers {
  import opened Options
  import opened Sequences

  datatype Steer = Steer(steerId: string, clientSteerId: Option<string>, text: string, createdAt: int)

  /** `acked` lists every steer newly acknowledged, in order; `inHand` are those the turn's loop has
      drained and not yet published; `applied` those it has. */
  datatype Book = Book(
    acked: seq<Steer>, queued: seq<Steer>, removed: set<string>, inHand: seq<Steer>, applied: seq<Steer>)

  datatype Answer =
    | Queued(steerId: string, position: nat, replayed: bool)
    | NoRun
    | Unsupported
    | EmptyText

  datatype Step =
    | Queue(text: string, clientSteerId: Option<string>, newId: string, now: int)
    | Cancel(steerId: string, client: string)
    | Drain
    | PublishOne

  const NO_STEERS := Book([], [], {}, [], [])

  /** The first queued steer carrying the client's id, as a position counted from 1; 0 if none. */
  function PositionOf(rows: seq<Steer>, client: string): (p: nat)
    ensures p <= |rows|
    ensures p > 0 ==> rows[p - 1].clientSteerId == Some(client)
    ensures forall i :: 0 <= i < (if p > 0 then p - 1 else |rows|) ==> rows[i].clientSteerId != Some(client)
  {
    if rows == [] then 0
    else
      var p := PositionOf(rows[..|rows| - 1], client);
      if p > 0 then p else if rows[|rows| - 1].clientSteerId == Some(client) then |rows| else 0
  }

  predicate Replays(b: Book, client: Option<string>) {
    client.Some? && PositionOf(b.queued, client.value) > 0
  }

  predicate Matches(row: Steer, steerId: string, client: string) {
    (steerId != "" && row.steerId == steerId) || (client != "" && row.clientSteerId == Some(client))
  }

  /** The rows a cancel takes away, and those it keeps. */
  function Split(rows: seq<Steer>, steerId: string, client: string): (r: (seq<Steer>, set<string>))
    ensures |r.0| <= |rows|
  {
    if rows == [] then ([], {})
    else
      var (kept, gone) := Split(rows[..|rows| - 1], steerId, client);
      var last := rows[|rows| - 1];
      if Matches(last, steerId, client) then (kept, gone + {last.steerId}) else (kept + [last], gone)
  }

  predicate Enabled(b: Book, step: Step) {
    match step
    case Queue(text, client, newId, _) => text != "" && forall i :: 0 <= i < |b.acked| ==> b.acked[i].steerId != newId
    case Cancel(_, _) => true
    case Drain => b.inHand == []
    case PublishOne => b.inHand != []
  }

  function Apply(b: Book, step: Step): Book
    requires Enabled(b, step)
  {
    match step
    case Queue(text, client, newId, now) =>
      if Replays(b, client) then b
      else
        var row := Steer(newId, client, text, now);
        b.(acked := b.acked + [row], queued := b.queued + [row])
    case Cancel(steerId, client) =>
      var (kept, gone) := Split(b.queued, steerId, client);
      b.(queued := kept, removed := b.removed + gone)
    case Drain => b.(queued := [], inHand := b.queued)
    case PublishOne => b.(inHand := b.inHand[1..], applied := b.applied + [b.inHand[0]])
  }

  predicate IsRun(b: Book, steps: seq<Step>)
    decreases |steps|
  {
    steps == [] || (Enabled(b, steps[0]) && IsRun(Apply(b, steps[0]), steps[1..]))
  }

  function After(b: Book, steps: seq<Step>): Book
    requires IsRun(b, steps)
    decreases |steps|
  {
    if steps == [] then b else After(Apply(b, steps[0]), steps[1..])
  }

  // ---- conservation ----------------------------------------------------------------------

  function Without(rows: seq<Steer>, gone: set<string>): seq<Steer> {
    if rows == [] then []
    else
      var last := rows[|rows| - 1];
      Without(rows[..|rows| - 1], gone) + (if last.steerId in gone then [] else [last])
  }

  ghost predicate UniqueIds(rows: seq<Steer>) {
    forall i, j :: 0 <= i < j < |rows| ==> rows[i].steerId != rows[j].steerId
  }

  ghost predicate UniqueClients(rows: seq<Steer>) {
    forall i, j :: 0 <= i < j < |rows| && rows[i].clientSteerId.Some? ==> rows[i].clientSteerId != rows[j].clientSteerId
  }

  predicate HasId(rows: seq<Steer>, id: string) {
    exists i :: 0 <= i < |rows| && rows[i].steerId == id
  }

  /** Every acknowledged steer that was not removed is applied, in hand or queued, once, and in the
      order of acknowledgement; no two queued steers share a client's id. */
  ghost predicate Conserved(b: Book) {
    && UniqueIds(b.acked) && UniqueClients(b.queued)
    && (forall id :: id in b.removed ==> HasId(b.acked, id))
    && Without(b.acked, b.removed) == b.applied + b.inHand + b.queued
  }

  lemma WithoutOne(rows: seq<Steer>, row: Steer, gone: set<string>)
    ensures Without(rows + [row], gone) == Without(rows, gone) + (if row.steerId in gone then [] else [row])
  {
    assert (rows + [row])[..|rows|] == rows;
  }

  lemma {:induction false} WithoutMembers(rows: seq<Steer>, gone: set<string>, id: string)
    ensures HasId(Without(rows, gone), id) <==> HasId(rows, id) && id !in gone
  {
    if rows != [] {
      var init, last := rows[..|rows| - 1], rows[|rows| - 1];
      WithoutMembers(init, gone, id);
      assert rows == init + [last];
      HasIdOne(init, last, id);
      HasIdOne(Without(init, gone), last, id);
      assert Without(init, gone) + [] == Without(init, gone);
    }
  }

  lemma HasIdOne(rows: seq<Steer>, last: Steer, id: string)
    ensures HasId(rows + [last], id) <==> HasId(rows, id) || last.steerId == id
  {
    var all := rows + [last];
    if HasId(rows, id) {
      var i :| 0 <= i < |rows| && rows[i].steerId == id;
      assert all[i].steerId == id;
    }
    assert all[|rows|] == last;
    if HasId(all, id) {
      var i :| 0 <= i < |all| && all[i].steerId == id;
      assert i < |rows| ==> rows[i].steerId == id;
    }
  }

  lemma {:induction false} WithoutConcat(a: seq<Steer>, b: seq<Steer>, gone: set<string>)
    ensures Without(a + b, gone) == Without(a, gone) + Without(b, gone)
  {
    if b == [] {
      assert a + b == a;
    } else {
      var init, last := b[..|b| - 1], b[|b| - 1];
      WithoutConcat(a, init, gone);
      SplitLast(a, b);
      WithoutOne(a + init, last, gone);
      WithoutOne(init, last, gone);
    }
  }

  lemma {:induction false} WithoutTwice(rows: seq<Steer>, gone: set<string>, more: set<string>)
    ensures Without(rows, gone + more) == Without(Without(rows, gone), more)
  {
    if rows != [] {
      var init, last := rows[..|rows| - 1], rows[|rows| - 1];
      WithoutTwice(init, gone, more);
      WithoutOne(Without(init, gone), last, more);
      assert Without(init, gone) + [] == Without(init, gone);
    }
  }

  lemma {:induction false} WithoutNone(rows: seq<Steer>, gone: set<string>)
    requires forall i :: 0 <= i < |rows| ==> rows[i].steerId !in gone
    ensures Without(rows, gone) == rows
  {
    if rows != [] {
      WithoutNone(rows[..|rows| - 1], gone);
    }
  }

  /** The ids of a stretch of unique rows. */
  lemma {:induction false} WithoutUnique(rows: seq<Steer>, gone: set<string>)
    requires UniqueIds(rows)
    ensures UniqueIds(Without(rows, gone))
  {
    if rows != [] {
      var init, last := rows[..|rows| - 1], rows[|rows| - 1];
      WithoutUnique(init, gone);
      var some := Without(init, gone);
      forall i | 0 <= i < |some| ensures some[i].steerId != last.steerId {
        assert HasId(some, some[i].steerId);
        WithoutMembers(init, gone, some[i].steerId);
      }
    }
  }

  /** A cancel's split: what is kept is the rest of the queue, what is gone was in it. */
  lemma {:induction false} SplitGone(rows: seq<Steer>, steerId: string, client: string, id: string)
    ensures id in Split(rows, steerId, client).1 <==>
              exists i :: 0 <= i < |rows| && rows[i].steerId == id && Matches(rows[i], steerId, client)
  {
    if rows != [] {
      var init, last := rows[..|rows| - 1], rows[|rows| - 1];
      SplitGone(init, steerId, client, id);
      if i :| 0 <= i < |init| && init[i].steerId == id && Matches(init[i], steerId, client) {
        assert rows[i] == init[i];
      }
      if i :| 0 <= i < |rows| && rows[i].steerId == id && Matches(rows[i], steerId, client) {
        assert i < |init| ==> init[i] == rows[i];
      }
    }
  }

  lemma {:induction false} SplitIs(rows: seq<Steer>, steerId: string, client: string)
    requires UniqueIds(rows)
    ensures Split(rows, steerId, client).0 == Without(rows, Split(rows, steerId, client).1)
  {
    if rows != [] {
      var init, last := rows[..|rows| - 1], rows[|rows| - 1];
      SplitIs(init, steerId, client);
      SplitGone(init, steerId, client, last.steerId);
      if Matches(last, steerId, client) {
        var gone := Split(init, steerId, client).1;
        WithoutTwice(init, gone, {last.steerId});
        forall i | 0 <= i < |Without(init, gone)| ensures Without(init, gone)[i].steerId != last.steerId {
          assert HasId(Without(init, gone), Without(init, gone)[i].steerId);
          WithoutMembers(init, gone, Without(init, gone)[i].steerId);
        }
        WithoutNone(Without(init, gone), {last.steerId});
      }
    }
  }

  lemma {:induction false} WithoutClients(rows: seq<Steer>, gone: set<string>)
    requires UniqueClients(rows)
    ensures UniqueClients(Without(rows, gone))
    ensures forall r :: r in Without(rows, gone) ==> r in rows
  {
    if rows != [] {
      var init, last := rows[..|rows| - 1], rows[|rows| - 1];
      WithoutClients(init, gone);
      var some := Without(init, gone);
      forall i | 0 <= i < |some| && some[i].clientSteerId.Some? ensures some[i].clientSteerId != last.clientSteerId {
        assert some[i] in init;
        var k :| 0 <= k < |init| && init[k] == some[i];
        assert rows[k] == some[i] && rows[|rows| - 1] == last;
      }
    }
  }

  lemma CancelKeeps(b: Book, steerId: string, client: string)
    requires Conserved(b)
    ensures Conserved(Apply(b, Cancel(steerId, client)))
  {
    var gone, front := Split(b.queued, steerId, client).1, b.applied + b.inHand;
    WithoutUnique(b.acked, b.removed);
    WithoutTwice(b.acked, b.removed, gone);
    CancelSplits(front, b.queued, steerId, client);
    WithoutClients(b.queued, gone);
    forall id | id in gone ensures HasId(b.acked, id) {
      HasIdConcat(front, b.queued, id);
      WithoutMembers(b.acked, b.removed, id);
    }
  }

  /** A cancel takes its steers out of the queue and leaves what is before it in place. */
  lemma CancelSplits(front: seq<Steer>, queued: seq<Steer>, steerId: string, client: string)
    requires UniqueIds(front + queued)
    ensures var (kept, gone) := Split(queued, steerId, client);
            && Without(front + queued, gone) == front + kept && Without(queued, gone) == kept
            && forall id :: id in gone ==> HasId(queued, id)
  {
    var gone, all := Split(queued, steerId, client).1, front + queued;
    assert UniqueIds(queued) by {
      assert forall i :: 0 <= i < |queued| ==> all[|front| + i] == queued[i];
    }
    SplitIs(queued, steerId, client);
    forall id | id in gone ensures HasId(queued, id) && !HasId(front, id) {
      SplitGone(queued, steerId, client, id);
      HasIdConcat(front, queued, id);
    }
    forall i | 0 <= i < |front| ensures front[i].steerId !in gone {
      assert HasId(front, front[i].steerId);
    }
    WithoutConcat(front, queued, gone);
    WithoutNone(front, gone);
  }

  lemma QueueKeeps(b: Book, step: Step)
    requires Conserved(b) && step.Queue? && Enabled(b, step)
    ensures Conserved(Apply(b, step))
  {
    if !Replays(b, step.clientSteerId) {
      var row := Steer(step.newId, step.clientSteerId, step.text, step.now);
      WithoutOne(b.acked, row, b.removed);
      assert row.steerId !in b.removed;
      var front := b.applied + b.inHand;
      assert front + (b.queued + [row]) == (front + b.queued) + [row];
      forall id | id in b.removed ensures HasId(b.acked + [row], id) {
        HasIdOne(b.acked, row, id);
      }
    }
  }

  lemma StepConserves(b: Book, step: Step)
    requires Conserved(b) && Enabled(b, step)
    ensures Conserved(Apply(b, step))
  {
    match step
    case Queue(_, _, _, _) => QueueKeeps(b, step);
    case Cancel(steerId, client) => CancelKeeps(b, steerId, client);
    case Drain =>
      assert b.applied + b.queued + [] == b.applied + [] + b.queued;
    case PublishOne =>
      assert b.inHand == [b.inHand[0]] + b.inHand[1..];
      assert (b.applied + [b.inHand[0]]) + b.inHand[1..] == b.applied + b.inHand;
  }

  /** Conservation over every run of queueing, reclaiming, draining and publishing. */
  lemma {:induction false} SteersConserved(b: Book, steps: seq<Step>)
    requires Conserved(b) && IsRun(b, steps)
    ensures Conserved(After(b, steps))
    decreases |steps|
  {
    if steps != [] {
      StepConserves(b, steps[0]);
      SteersConserved(Apply(b, steps[0]), steps[1..]);
    }
  }

  /** What the turn hands back at its end is exactly the acknowledged steers that were neither
      removed nor applied; each acknowledged id is in one place only. */
  lemma LeftoversExact(steps: seq<Step>, id: string)
    requires IsRun(NO_STEERS, steps) && After(NO_STEERS, steps).inHand == []
    ensures var b := After(NO_STEERS, steps);
            && (HasId(b.queued, id) <==> HasId(b.acked, id) && id !in b.removed && !HasId(b.applied, id))
            && (HasId(b.applied, id) ==> HasId(b.acked, id) && id !in b.removed)
            && (id in b.removed ==> HasId(b.acked, id))
  {
    SteersConserved(NO_STEERS, steps);
    BookExact(After(NO_STEERS, steps), id);
  }

  lemma HasIdConcat(a: seq<Steer>, b: seq<Steer>, id: string)
    ensures HasId(a + b, id) <==> HasId(a, id) || HasId(b, id)
    ensures UniqueIds(a + b) ==> !(HasId(a, id) && HasId(b, id))
  {
    var all := a + b;
    assert forall i :: 0 <= i < |a| ==> all[i] == a[i];
    assert forall i :: 0 <= i < |b| ==> all[|a| + i] == b[i];
    assert forall i :: |a| <= i < |all| ==> all[i] == b[i - |a|];
  }

  lemma BookExact(b: Book, id: string)
    requires Conserved(b) && b.inHand == []
    ensures HasId(b.queued, id) <==> HasId(b.acked, id) && id !in b.removed && !HasId(b.applied, id)
    ensures HasId(b.applied, id) ==> HasId(b.acked, id) && id !in b.removed
    ensures id in b.removed ==> HasId(b.acked, id)
  {
    WithoutMembers(b.acked, b.removed, id);
    WithoutUnique(b.acked, b.removed);
    assert b.applied + b.inHand == b.applied;
    HasIdConcat(b.applied, b.queued, id);
  }

  /** A steer the loop has drained can no longer be reclaimed. */
  lemma DrainedStays(b: Book, steerId: string, client: string)
    requires Conserved(b)
    ensures var b' := Apply(b, Cancel(steerId, client));
            && b'.inHand == b.inHand && b'.applied == b.applied
            && forall id :: HasId(b.applied + b.inHand, id) ==> id !in b'.removed
  {
    CancelKeeps(b, steerId, client);
    var b' := Apply(b, Cancel(steerId, client));
    var front, all := b.applied + b.inHand, b.applied + b.inHand + b'.queued;
    forall id | HasId(front, id) ensures id !in b'.removed {
      var i :| 0 <= i < |front| && front[i].steerId == id;
      assert all[i].steerId == id;
      assert HasId(all, id);
      WithoutMembers(b'.acked, b'.removed, id);
    }
  }

  /** `left` are the rows a cancel does not name, in their order: it names one by a steer id or a
      client's id, an empty one naming nothing. */
  ghost predicate IsLeft(rows: seq<Steer>, left: seq<Steer>, steerId: string, client: string) {
    && (forall r :: r in left <==>
          && r in rows && (steerId == "" || r.steerId != steerId)
          && (client == "" || r.clientSteerId.None? || r.clientSteerId.value != client))
    && InOrder(rows, left)
  }

  /** The rows of `left` come one after the other in `rows`. */
  ghost predicate InOrder(rows: seq<Steer>, left: seq<Steer>) {
    exists at: seq<nat> :: ArePlaces(rows, left, at)
  }

  ghost predicate ArePlaces(rows: seq<Steer>, left: seq<Steer>, at: seq<nat>) {
    && |at| == |left|
    && (forall i :: 0 <= i < |at| ==> at[i] < |rows| && rows[at[i]] == left[i])
    && (forall i, j :: 0 <= i < j < |at| ==> at[i] < at[j])
  }

  lemma {:induction false} CancelLeaves(rows: seq<Steer>, steerId: string, client: string)
    ensures IsLeft(rows, Split(rows, steerId, client).0, steerId, client)
  {
    if rows == [] {
      assert ArePlaces(rows, [], []);
    } else {
      var init, last := rows[..|rows| - 1], rows[|rows| - 1];
      CancelLeaves(init, steerId, client);
      var kept := Split(init, steerId, client).0;
      var at: seq<nat> :| ArePlaces(init, kept, at);
      assert rows == init + [last];
      if Matches(last, steerId, client) {
        assert ArePlaces(rows, kept, at);
      } else {
        var more: seq<nat> := at + [|init|];
        assert ArePlaces(rows, kept + [last], more);
      }
    }
  }

  /** A cancel takes exactly the queued steers it names out of the queue and counts exactly them as
      removed. */
  lemma CancelExactly(b: Book, steerId: string, client: string)
    ensures var b' := Apply(b, Cancel(steerId, client));
            && IsLeft(b.queued, b'.queued, steerId, client)
            && b'.acked == b.acked && b'.inHand == b.inHand && b'.applied == b.applied
            && forall id :: id in b'.removed <==>
                 id in b.removed || exists i :: 0 <= i < |b.queued| && b.queued[i].steerId == id
                                                && b.queued[i] !in b'.queued
  {
    CancelLeaves(b.queued, steerId, client);
    var b' := Apply(b, Cancel(steerId, client));
    forall id
      ensures id in b'.removed <==>
              id in b.removed || exists i :: 0 <= i < |b.queued| && b.queued[i].steerId == id
                                             && b.queued[i] !in b'.queued
    {
      SplitGone(b.queued, steerId, client, id);
    }
  }

  // ---- the queue object ------------------------------------------------------------------

  /** The steering part of a job. */
  class SteerQueue {
    var active: bool
    const agent: bool
    var steers: seq<Steer>
    ghost var book: Book

    ghost predicate Valid()
      reads this
    {
      steers == book.queued && Conserved(book)
    }

    constructor (agent: bool)
      ensures Valid() && book == NO_STEERS && active && this.agent == agent
    {
      this.agent := agent;
      active := true;
      steers := [];
      book := NO_STEERS;
    }

    /** Queue one follow-up. A client's id already queued replays its first acknowledgement. */
    method QueueSteer(text: string, client: Option<string>, newId: string, now: int) returns (answer: Answer)
      requires Valid() && forall i :: 0 <= i < |book.acked| ==> book.acked[i].steerId != newId
      modifies this
      ensures Valid() && active == old(active)
      ensures answer.NoRun? <==> !active
      ensures answer.Unsupported? <==> active && !agent
      ensures answer.EmptyText? <==> active && agent && text == ""
      ensures !answer.Queued? ==> book == old(book)
      ensures answer.Queued? ==>
                && book == Apply(old(book), Queue(text, client, newId, now))
                && 0 < answer.position <= |steers| && steers[answer.position - 1].steerId == answer.steerId
                && steers[answer.position - 1].clientSteerId == client
                && answer.replayed == (|steers| == |old(steers)|)
      ensures answer.Queued? ==>
                if client.Some? && exists i :: 0 <= i < |old(steers)| && old(steers)[i].clientSteerId == client then
                  && answer.replayed && steers == old(steers)
                  && forall i :: 0 <= i < answer.position - 1 ==> steers[i].clientSteerId != client
                else
                  && steers == old(steers) + [Steer(newId, client, text, now)]
                  && answer == Queued(newId, |steers|, false)
    {
      if !active {
        return NoRun;
      }
      if !agent {
        return Unsupported;
      }
      if text == "" {
        return EmptyText;
      }
      ghost var step := Queue(text, client, newId, now);
      StepConserves(book, step);
      if client.Some? {
        for i := 0 to |steers|
          invariant forall k :: 0 <= k < i ==> steers[k].clientSteerId != client
          invariant steers == old(steers) && book == old(book)
        {
          if steers[i].clientSteerId == client {
            return Queued(steers[i].steerId, i + 1, true);
          }
        }
      }
      steers := steers + [Steer(newId, client, text, now)];
      book := Apply(book, step);
      answer := Queued(newId, |steers|, false);
    }

    method CancelSteer(steerId: string, client: string) returns (ran: bool, removed: bool)
      requires Valid()
      modifies this
      ensures Valid() && active == old(active) && ran == active
      ensures book == if ran then Apply(old(book), Cancel(steerId, client)) else old(book)
      ensures removed <==> ran && exists i :: 0 <= i < |old(steers)| && Matches(old(steers)[i], steerId, client)
      ensures if ran then IsLeft(old(steers), steers, steerId, client) else steers == old(steers)
    {
      if !active {
        return false, false;
      }
      CancelKeeps(book, steerId, client);
      removed := false;
      var kept := [];
      for i := 0 to |steers|
        invariant steers == old(steers) && book == old(book)
        invariant kept == Split(steers[..i], steerId, client).0
        invariant removed <==> exists k :: 0 <= k < i && Matches(steers[k], steerId, client)
      {
        assert steers[..i + 1][..i] == steers[..i];
        if Matches(steers[i], steerId, client) {
          removed := true;
        } else {
          kept := kept + [steers[i]];
        }
      }
      assert steers[..|steers|] == steers;
      CancelLeaves(steers, steerId, client);
      steers := kept;
      book := Apply(book, Cancel(steerId, client));
      ran := true;
    }

    /** The loop takes the whole queue at once. */
    method TakeAll() returns (drained: seq<Steer>)
      requires Valid() && book.inHand == []
      modifies this
      ensures Valid() && active == old(active) && steers == [] && drained == old(steers)
      ensures book == Apply(old(book), Drain)
    {
      StepConserves(book, Drain);
      drained := steers;
      steers := [];
      book := Apply(book, Drain);
    }
  }
}
