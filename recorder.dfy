/**
 * start_recording_engine: a backfill of upstream pages 1 to 50, then a live
 * loop that polls page 1 forever. The pauses between requests and the
 * connection session are not modelled; the answers the engine receives are
 * an input, one per request, and a run ends when they run out (the process
 * is stopped) or when an exception leaves save_to_db, which nothing in the
 * engine catches.
 */
module Recorder {
  import opened Wrappers
  import opened Json
  import opened Python
  import opened History
  import opened Upstream

  const BackfillPages: nat := 50
  const LivePage: nat := 1

  /** Where the engine is: backfilling `page`, polling live, or ended by an exception. */
  datatype Phase = Backfill(page: nat) | Live | Stopped

  const Start: Phase := Backfill(1)

  /** The reachable phases: a backfill page is one of 1..50. */
  predicate ValidPhase(p: Phase)
  {
    p.Backfill? ==> 1 <= p.page <= BackfillPages
  }

  /** The page the engine fetches next, and none once it has stopped. */
  function NextPage(p: Phase): (r: Option<nat>)
    requires ValidPhase(p)
    ensures r.None? <==> p.Stopped?
    ensures r.Some? ==> 1 <= r.value <= BackfillPages
  {
    match p
    case Backfill(n) => Some(n)
    case Live => Some(LivePage)
    case Stopped => None
  }

  /** The phase after one cycle, given whether saving its page raised. */
  function Advance(p: Phase, raised: bool): (q: Phase)
    requires ValidPhase(p)
    ensures ValidPhase(q)
  {
    if raised then Stopped
    else match p
      case Backfill(n) => if n < BackfillPages then Backfill(n + 1) else Live
      case Live => Live
      case Stopped => Stopped
  }

  /** The page of the `k`-th request (from 0): 1..50 in order, then page 1 for ever. */
  function ScheduledPage(k: nat): nat
  {
    if k < BackfillPages then k + 1 else LivePage
  }

  /** The phase after `k` cycles of which none raised. */
  function PhaseAfter(k: nat): (p: Phase)
    ensures ValidPhase(p)
  {
    if k == 0 then Start else Advance(PhaseAfter(k - 1), false)
  }

  /** The recorder's state between cycles: the table, the phase, the requests sent so far. */
  datatype Engine = Engine(table: map<string, Record>, phase: Phase, requests: seq<Request>)

  predicate ValidEngine(e: Engine) { ValidPhase(e.phase) }

  /** One cycle: fetch the phase's page, save what it yields, move on (or stop if the save raised). */
  function Cycle(e: Engine, reply: Reply): (e': Engine)
    requires ValidEngine(e)
    ensures ValidEngine(e')
  {
    match NextPage(e.phase)
    case None => e
    case Some(page) =>
      var requests := e.requests + [RequestFor(page)];
      match Batch(PageItems(reply))
      case None => Engine(e.table, Advance(e.phase, true), requests)
      case Some(batch) => Engine(Run(e.table, batch).table, Advance(e.phase, false), requests)
  }

  /** The engine after the answers `replies`, started on the table `h`. */
  function Drive(h: map<string, Record>, replies: seq<Reply>): (e: Engine)
    ensures ValidEngine(e)
    decreases |replies|
  {
    if replies == [] then Engine(h, Start, [])
    else Cycle(Drive(h, replies[..|replies| - 1]), replies[|replies| - 1])
  }

  lemma DriveSnoc(h: map<string, Record>, replies: seq<Reply>, reply: Reply)
    ensures Drive(h, replies + [reply]) == Cycle(Drive(h, replies), reply)
  {
    assert (replies + [reply])[..|replies|] == replies;
  }

  /** A stopped engine ignores every further answer. */
  lemma {:induction false} StoppedStays(h: map<string, Record>, replies: seq<Reply>, more: seq<Reply>)
    requires Drive(h, replies).phase.Stopped?
    ensures Drive(h, replies + more) == Drive(h, replies)
    decreases |more|
  {
    if more == [] {
      assert replies + more == replies;
    } else {
      var n := |more| - 1;
      StoppedStays(h, replies, more[..n]);
      assert replies + more == (replies + more[..n]) + [more[n]];
      DriveSnoc(h, replies + more[..n], more[n]);
    }
  }

  /** One more answer, given what Store.Save promises for the page it carried. */
  lemma DriveStep(h: map<string, Record>, replies: seq<Reply>, i: nat, table: map<string, Record>, raised: bool)
    requires i < |replies| && !Drive(h, replies[..i]).phase.Stopped?
    requires var e := Drive(h, replies[..i]);
      var b := Batch(PageItems(replies[i]));
      && (raised <==> b.None?)
      && (raised ==> table == e.table)
      && (!raised ==> table == Run(e.table, b.value).table)
    ensures var e := Drive(h, replies[..i]);
      Drive(h, replies[..i + 1])
        == Engine(table, Advance(e.phase, raised), e.requests + [RequestFor(NextPage(e.phase).value)])
  {
    assert replies[..i + 1] == replies[..i] + [replies[i]];
    DriveSnoc(h, replies[..i], replies[i]);
  }

  /** After the exception that stops the engine, the answers left over are never read. */
  lemma StoppedAt(h: map<string, Record>, replies: seq<Reply>, i: nat)
    requires i <= |replies| && Drive(h, replies[..i]).phase.Stopped?
    ensures Drive(h, replies) == Drive(h, replies[..i])
  {
    StoppedStays(h, replies[..i], replies[i..]);
    assert replies[..i] + replies[i..] == replies;
  }

  /**
   * The engine, with the two loops of start_recording_engine. Returns the
   * requests it sent and the phase it ended in.
   */
  method RecordingEngine(store: Store, replies: seq<Reply>) returns (requests: seq<Request>, phase: Phase)
    modifies store
    ensures Drive(old(store.table), replies) == Engine(store.table, phase, requests)
    ensures phase.Stopped? || |requests| == |replies|
  {
    ghost var start := store.table;
    var i;
    requests, phase, i := BackfillLoop(store, replies);
    if !phase.Stopped? {
      requests, phase := LiveLoop(store, replies, start, i, requests, phase);
    }
  }

  /**
   * One pass of either loop's body: fetch `page` (the answer is the `i`-th
   * reply) and save what it yields.
   */
  method OneCycle(store: Store, replies: seq<Reply>, ghost start: map<string, Record>, i: nat,
                  ghost phase: Phase, requests0: seq<Request>, page: nat)
    returns (requests: seq<Request>, raised: bool)
    requires i < |replies| && ValidPhase(phase) && NextPage(phase) == Some(page)
    requires Drive(start, replies[..i]) == Engine(store.table, phase, requests0)
    modifies store
    ensures requests == requests0 + [RequestFor(page)]
    ensures Drive(start, replies[..i + 1]) == Engine(store.table, Advance(phase, raised), requests)
  {
    var items := PageItems(replies[i]);
    requests := requests0 + [RequestFor(page)];
    var _, r := store.Save(items);
    raised := r;
    DriveStep(start, replies, i, store.table, raised);
  }

  /** The first loop: pages 1 to 50, one answer each, while answers last. */
  method BackfillLoop(store: Store, replies: seq<Reply>) returns (requests: seq<Request>, phase: Phase, i: nat)
    modifies store
    ensures i <= |replies| && |requests| == i
    ensures Drive(old(store.table), replies[..i]) == Engine(store.table, phase, requests)
    ensures phase.Stopped? ==> Drive(old(store.table), replies) == Engine(store.table, phase, requests)
    ensures phase.Backfill? ==> i == |replies|
  {
    ghost var start := store.table;
    requests, phase := [], Start;
    i := 0;
    var p := 1;
    while p <= BackfillPages && i < |replies|
      invariant 1 <= p <= BackfillPages + 1 && i == p - 1 && i <= |replies| && |requests| == i
      invariant phase == (if p <= BackfillPages then Backfill(p) else Live)
      invariant Drive(start, replies[..i]) == Engine(store.table, phase, requests)
    {
      var raised;
      requests, raised := OneCycle(store, replies, start, i, phase, requests, p);
      i := i + 1;
      if raised {
        phase := Stopped;
        StoppedAt(start, replies, i);
        return;
      }
      p := p + 1;
      phase := if p <= BackfillPages then Backfill(p) else Live;
    }
  }

  /** The second loop: page 1 again and again, until the answers run out. */
  method LiveLoop(store: Store, replies: seq<Reply>, ghost start: map<string, Record>, i0: nat,
                  requests0: seq<Request>, phase0: Phase)
    returns (requests: seq<Request>, phase: Phase)
    requires i0 <= |replies| && |requests0| == i0
    requires Drive(start, replies[..i0]) == Engine(store.table, phase0, requests0)
    requires phase0.Live? || (phase0.Backfill? && i0 == |replies|)
    modifies store
    ensures Drive(start, replies) == Engine(store.table, phase, requests)
    ensures phase.Stopped? || |requests| == |replies|
  {
    requests, phase := requests0, phase0;
    var i := i0;
    while i < |replies| && !phase.Stopped?
      invariant i <= |replies| && |requests| == i
      invariant phase == Live || phase == Stopped || (phase.Backfill? && i == |replies|)
      invariant Drive(start, replies[..i]) == Engine(store.table, phase, requests)
    {
      var raised;
      requests, raised := OneCycle(store, replies, start, i, phase, requests, LivePage);
      phase := Advance(phase, raised);
      i := i + 1;
    }
    if phase.Stopped? {
      StoppedAt(start, replies, i);
    } else {
      assert replies[..i] == replies;
    }
  }

  // ---------------------------------------------------------------------------
  // The schedule
  // ---------------------------------------------------------------------------

  /** Without an exception the engine backfills page k+1 in cycle k < 50 and is live from cycle 50 on. */
  lemma {:induction false} PhaseAfterIs(k: nat)
    ensures PhaseAfter(k) == if k < BackfillPages then Backfill(k + 1) else Live
  {
    if k > 0 {
      PhaseAfterIs(k - 1);
    }
  }

  /**
   * Every run requests pages on the fixed schedule: request k asks for
   * page ScheduledPage(k) with the feed's page size and type; an engine
   * still running has answered every reply and is in PhaseAfter of that many.
   */
  lemma {:induction false} RequestsFollowSchedule(h: map<string, Record>, replies: seq<Reply>)
    ensures var e := Drive(h, replies);
      && |e.requests| <= |replies|
      && (forall k :: 0 <= k < |e.requests| ==> e.requests[k] == RequestFor(ScheduledPage(k)))
      && (!e.phase.Stopped? ==> |e.requests| == |replies| && e.phase == PhaseAfter(|replies|))
    decreases |replies|
  {
    if replies != [] {
      var n := |replies| - 1;
      RequestsFollowSchedule(h, replies[..n]);
      var e := Drive(h, replies[..n]);
      assert Drive(h, replies) == Cycle(e, replies[n]);
      CycleShape(e, replies[n]);
      ScheduleStep(e, Cycle(e, replies[n]), n);
    }
  }

  /** Requests sent on schedule by an engine after `n` answers. */
  predicate OnSchedule(e: Engine, n: nat)
  {
    && |e.requests| <= n
    && (forall k :: 0 <= k < |e.requests| ==> e.requests[k] == RequestFor(ScheduledPage(k)))
    && (!e.phase.Stopped? ==> |e.requests| == n && e.phase == PhaseAfter(n))
  }

  /** A cycle shaped as `CycleShape` states keeps the requests on schedule. */
  lemma ScheduleStep(e: Engine, e': Engine, n: nat)
    requires ValidEngine(e) && OnSchedule(e, n)
    requires e.phase.Stopped? ==> e' == e
    requires !e.phase.Stopped? ==> e'.requests == e.requests + [RequestFor(NextPage(e.phase).value)]
    requires !e'.phase.Stopped? ==> e'.phase == Advance(e.phase, false)
    ensures OnSchedule(e', n + 1)
  {
    if !e.phase.Stopped? {
      PhaseAfterIs(n);
      PhaseAfterIs(n + 1);
      assert NextPage(e.phase) == Some(ScheduledPage(n));
    }
  }

  /** A cycle of a running engine sends its phase's request and, unless the save raised, advances normally. */
  lemma CycleShape(e: Engine, reply: Reply)
    requires ValidEngine(e)
    ensures var e' := Cycle(e, reply);
      && (e.phase.Stopped? ==> e' == e)
      && (!e.phase.Stopped? ==> e'.requests == e.requests + [RequestFor(NextPage(e.phase).value)])
      && (!e'.phase.Stopped? ==> e'.phase == Advance(e.phase, false))
  {
  }

  /**
   * Pages 1, 2, ..., 50 are each requested exactly once, in that order, as
   * the first 50 requests; every later request is for page 1.
   */
  lemma BackfillThenLive(h: map<string, Record>, replies: seq<Reply>)
    ensures var r := Drive(h, replies).requests;
      && (forall k :: 0 <= k < |r| && k < BackfillPages ==> r[k].pageNo == k + 1)
      && (forall k :: BackfillPages <= k < |r| ==> r[k].pageNo == LivePage)
      && (forall j, k :: 0 <= j < k < |r| && k < BackfillPages ==> r[j].pageNo < r[k].pageNo)
  {
    RequestsFollowSchedule(h, replies);
  }

  /** The phase never goes back: once live (or stopped) the engine never backfills again. */
  lemma {:induction false} NoReturnToBackfill(h: map<string, Record>, replies: seq<Reply>, more: seq<Reply>)
    requires !Drive(h, replies).phase.Backfill?
    ensures !Drive(h, replies + more).phase.Backfill?
    decreases |more|
  {
    if more == [] {
      assert replies + more == replies;
    } else {
      var n := |more| - 1;
      NoReturnToBackfill(h, replies, more[..n]);
      assert replies + more == (replies + more[..n]) + [more[n]];
      DriveSnoc(h, replies + more[..n], more[n]);
    }
  }

  /**
   * A failed fetch, a non-200 status, an unparseable body or a document that
   * is not an object costs one cycle and changes no row.
   */
  lemma FailedFetchChangesNothing(e: Engine, reply: Reply)
    requires ValidEngine(e) && !e.phase.Stopped?
    requires !(reply.Answered? && reply.status == 200 && reply.body.Parsed? && reply.body.doc.JObject?)
    ensures var e' := Cycle(e, reply);
      e'.table == e.table && e'.phase == Advance(e.phase, false) && |e'.requests| == |e.requests| + 1
  {
  }

  /** A cycle never removes or overwrites a stored row. */
  lemma {:induction false} RowsNeverLost(h: map<string, Record>, replies: seq<Reply>)
    ensures var t := Drive(h, replies).table;
      h.Keys <= t.Keys && forall k :: k in h ==> t[k] == h[k]
    decreases |replies|
  {
    if replies != [] {
      var n := |replies| - 1;
      RowsNeverLost(h, replies[..n]);
      var e := Drive(h, replies[..n]);
      if !e.phase.Stopped? {
        var b := Batch(PageItems(replies[n]));
        if b.Some? {
          StoredRowsKept(e.table, b.value);
        }
      }
    }
  }

  /**
   * A 200 answer whose `data.list` member is `true` or a non-zero number is
   * truthy but cannot be iterated, whatever else the answer holds:
   * save_to_db raises, no row changes and the engine stops.
   */
  lemma TruthyScalarListStops(e: Engine, top: seq<(string, Json)>, data: seq<(string, Json)>, list: Json)
    requires ValidEngine(e) && !e.phase.Stopped?
    requires Lookup(top, "data") == Some(JObject(data)) && Lookup(data, "list") == Some(list)
    requires list == JBool(true) || (list.JInt? && list.i != 0)
    ensures Cycle(e, Answered(200, Parsed(JObject(top)))).phase == Stopped
    ensures Cycle(e, Answered(200, Parsed(JObject(top)))).table == e.table
  {
    FeedPageItems(top, data, list);
  }
}
