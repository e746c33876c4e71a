/** The paginator (`get_trades`): walk one symbol's trades forward from a
    cursor, page by page, until the window's end is passed. The clock and the
    server are inputs: each pass of the loop consumes one `Event`. */
module Pagination {
  import opened Trades
  import opened Symbols
  import opened Sink

  /** Seconds slept between two successful pages. */
  const BetweenRequests := 4
  /** Seconds assumed when a 429 reply carries no Retry-After header. */
  const DefaultRetryAfter := 70
  /** Seconds slept after a status other than 200 and 429. */
  const ErrorPause := 2
  /** Seconds slept by the outer handler before the inner loop restarts. */
  const CrashPause := 1

  /** What one request yields: an HTTP reply (status, Retry-After header when
      present, decoded body when the status is 200), or a fault raised while
      opening the session, sending the request or decoding the reply. */
  datatype Response = Reply(status: int, retryAfter: Option<int>, body: seq<Trade>) | Fault

  /** One pass of the inner loop: the clock reading used as the request's upper
      bound (`get_until`), and what the server answered. */
  datatype Event = Event(now: int, response: Response)

  /** The paginator's state: the timestamp of the last trade seen, and whether
      collection has ended. */
  datatype Pager = Pager(cursor: int, done: bool)

  /** What one pass decides before anything is written: the new cursor, whether
      to stop, the batch to hand to the sink (empty: no call) and how long to sleep. */
  datatype Decision = Decision(cursor: int, stop: bool, batch: seq<Trade>, pause: int)

  predicate IsPage(r: Response)
  {
    r.Reply? && r.status == 200
  }

  /** The lower bound of the next request. */
  function Lower(p: Pager): int
  {
    p.cursor + 1
  }

  /** One pass of the inner loop, from the response to the decision "end or continue?". */
  function Decide(cursor: int, end: int, ev: Event): (r: Decision)
    // only a successful, non-empty page moves the cursor, to its last record
    ensures !IsPage(ev.response) ==> r.cursor == cursor && !r.stop && r.batch == []
    ensures IsPage(ev.response) && ev.response.body == [] ==> r.cursor == cursor
    ensures IsPage(ev.response) && ev.response.body != [] ==>
      r.cursor == ev.response.body[|ev.response.body| - 1].ts
    // the three-way rule, in its order of precedence
    ensures IsPage(ev.response) && ev.now > end && ev.response.body == [] ==> r.stop && r.batch == []
    ensures IsPage(ev.response) && !(ev.now > end && ev.response.body == []) ==> (r.stop <==> r.cursor >= end)
    ensures IsPage(ev.response) && !r.stop ==> r.batch == ev.response.body
    ensures IsPage(ev.response) && r.stop ==> r.batch == UntilEnd(ev.response.body, end)
    // what is handed to the sink comes from the page, in page order
    ensures r.batch != [] ==> IsPage(ev.response) && IsSubseq(r.batch, ev.response.body)
    ensures IsPage(ev.response) && Ascending(ev.response.body) ==>
      forall t :: t in r.batch ==> t.ts <= end && t.ts <= r.cursor
    // pauses
    ensures ev.response == Fault ==> r.pause == CrashPause
    ensures ev.response.Reply? && ev.response.status == 429 ==>
      r.pause == 1 + if ev.response.retryAfter.Some? then ev.response.retryAfter.value else DefaultRetryAfter
    ensures ev.response.Reply? && ev.response.status !in {200, 429} ==> r.pause == ErrorPause
    ensures IsPage(ev.response) && !r.stop ==> r.pause == BetweenRequests
  {
    match ev.response
    case Fault => Decision(cursor, false, [], CrashPause)
    case Reply(status, retryAfter, trades) =>
      if status == 429 then
        var wait := if retryAfter.None? then DefaultRetryAfter else retryAfter.value;
        Decision(cursor, false, [], wait + 1)
      else if status != 200 then
        Decision(cursor, false, [], ErrorPause)
      else
        var last := if |trades| > 0 then trades[|trades| - 1].ts else cursor;
        assert Ascending(trades) ==> forall t :: t in trades ==> t.ts <= last by {
          if Ascending(trades) {
            forall t | t in trades ensures t.ts <= last { LastIsLatest(trades, t); }
          }
        }
        if ev.now > end && |trades| == 0 then
          Decision(last, true, [], 0)
        else if last < end then
          SubseqOfSelf(trades);
          Decision(last, false, trades, BetweenRequests)
        else
          Decision(last, true, UntilEnd(trades, end), 0)
  }

  lemma {:induction false} SubseqOfSelf(s: seq<Trade>)
    ensures IsSubseq(s, s)
  {
    if s != [] {
      SubseqOfSelf(s[1..]);
    }
  }

  /** The constant part of a run: the normalised symbol, the window's end, the
      sink's configuration and the filesystem's failures. */
  datatype Context = Context(symbol: string, end: int, cfg: Config, env: Env)

  /** One pass including the sink: the new state, the disk after it, the batch
      handed to the sink, whether the sink raised, and how long the pass sleeps. */
  datatype Round = Round(pager: Pager, disk: Disk, batch: seq<Trade>, faulted: bool, pause: int)

  /** A sink that raises sends control to the outer handler, which sleeps its
      own pause instead of the reply's and restarts the inner loop from the
      cursor as it now is: the page is not requested again. */
  function Step(ctx: Context, p: Pager, d: Disk, ev: Event): Round
  {
    var dec := Decide(p.cursor, ctx.end, ev);
    if dec.batch == [] then
      Round(Pager(dec.cursor, dec.stop), d, [], false, dec.pause)
    else
      var e := Processed(d, ctx.env, ctx.cfg, dec.batch, ctx.symbol);
      Round(Pager(dec.cursor, dec.stop && !e.raised), e.disk, dec.batch, e.raised,
            if e.raised then CrashPause else dec.pause)
  }

  /** A run over a finite sequence of events: the final state, the disk, the
      batches handed to the sink in order, and how many events were consumed. */
  datatype Trace = Trace(pager: Pager, disk: Disk, batches: seq<seq<Trade>>, used: nat)

  function Drive(ctx: Context, p: Pager, d: Disk, events: seq<Event>): Trace
    decreases |events|
  {
    if p.done || events == [] then Trace(p, d, [], 0)
    else
      var s := Step(ctx, p, d, events[0]);
      var rest := Drive(ctx, s.pager, s.disk, events[1..]);
      Trace(rest.pager, rest.disk, (if s.batch == [] then [] else [s.batch]) + rest.batches, rest.used + 1)
  }

  lemma DriveUnfold(ctx: Context, p: Pager, d: Disk, events: seq<Event>)
    requires !p.done && events != []
    ensures var s := Step(ctx, p, d, events[0]);
      Drive(ctx, p, d, events)
        == Prepend(if s.batch == [] then [] else [s.batch], 1, Drive(ctx, s.pager, s.disk, events[1..]))
  {
  }

  function Prepend(batches: seq<seq<Trade>>, used: nat, tr: Trace): Trace
  {
    Trace(tr.pager, tr.disk, batches + tr.batches, used + tr.used)
  }

  /** The server keeps to the request: every page it returns along the run is
      ascending and holds only records after the request's lower bound. */
  ghost predicate Served(ctx: Context, p: Pager, d: Disk, events: seq<Event>)
    decreases |events|
  {
    p.done || events == [] ||
    (var ev := events[0];
     (IsPage(ev.response) ==>
        Ascending(ev.response.body) && forall t :: t in ev.response.body ==> Lower(p) <= t.ts) &&
     var s := Step(ctx, p, d, ev);
     Served(ctx, s.pager, s.disk, events[1..]))
  }

  /** A fault, a 429 and any other status other than 200 leave the state and
      the disk as they were; the next request starts at the same lower bound. */
  lemma RetriesKeepCursor(ctx: Context, p: Pager, d: Disk, ev: Event)
    requires !p.done
    requires !IsPage(ev.response)
    ensures var s := Step(ctx, p, d, ev);
      s.pager == Pager(p.cursor, false) && s.disk == d && s.batch == [] && Lower(s.pager) == Lower(p)
  {
  }

  /** When the sink raises on a batch, the cursor has already moved past the
      whole page: the run goes on after the outer handler's pause, the page is
      lost, and no later request covers any of its records. */
  lemma SinkFaultSkipsPage(ctx: Context, p: Pager, d: Disk, ev: Event)
    requires IsPage(ev.response) && Ascending(ev.response.body)
    ensures var s := Step(ctx, p, d, ev);
      s.faulted ==>
        && !s.pager.done
        && s.pause == CrashPause
        && s.disk.files == d.files
        && forall t :: t in ev.response.body ==> t.ts < Lower(s.pager)
  {
    var s := Step(ctx, p, d, ev);
    var dec := Decide(p.cursor, ctx.end, ev);
    if s.faulted {
      ProcessedAppendsToOneFile(d, ctx.env, ctx.cfg, dec.batch, ctx.symbol);
      forall t | t in ev.response.body ensures t.ts < Lower(s.pager) {
        LastIsLatest(ev.response.body, t);
      }
    }
  }

  /** One pass on a page the server returned as requested: the cursor never
      moves back, and the batch handed over is ascending and lies after the old
      cursor, not after the new one and not after `end`. */
  lemma StepBatchInWindow(ctx: Context, p: Pager, d: Disk, ev: Event)
    requires IsPage(ev.response) ==>
      Ascending(ev.response.body) && forall t :: t in ev.response.body ==> Lower(p) <= t.ts
    ensures var s := Step(ctx, p, d, ev);
      && p.cursor <= s.pager.cursor
      && Ascending(s.batch)
      && forall t :: t in s.batch ==> p.cursor < t.ts <= ctx.end && t.ts <= s.pager.cursor
  {
    var s := Step(ctx, p, d, ev);
    if IsPage(ev.response) {
      var body := ev.response.body;
      var dec := Decide(p.cursor, ctx.end, ev);
      if body != [] {
        assert body[|body| - 1] in body;
      }
      if dec.stop {
        UntilEndAscending(body, ctx.end);
      }
    }
  }

  /** Every record of a batch is strictly earlier than every record of any later batch. */
  ghost predicate Separated(batches: seq<seq<Trade>>)
  {
    forall i, j :: 0 <= i < j < |batches| ==>
      forall t, u :: t in batches[i] && u in batches[j] ==> t.ts < u.ts
  }

  lemma SeparatedCons(b: seq<Trade>, batches: seq<seq<Trade>>, bound: int)
    requires Separated(batches)
    requires forall t :: t in b ==> t.ts <= bound
    requires forall c, u :: c in batches && u in c ==> bound < u.ts
    ensures Separated([b] + batches)
  {
    var all: seq<seq<Trade>> := [b] + batches;
    forall i, j | 0 <= i < j < |all|
      ensures forall t: Trade, u: Trade :: t in all[i] && u in all[j] ==> t.ts < u.ts
    {
      assert all[j] == batches[j - 1];
      if i > 0 {
        assert all[i] == batches[i - 1];
      }
    }
  }

  /** When the server keeps to its requests, every batch handed to the sink is
      non-empty and ascending, lies inside the window after the starting cursor
      and not after `end`, and every record of a batch precedes every record of
      any later batch: no record is handed over twice. */
  lemma {:induction false} DriveHandsOverEachRecordOnce(ctx: Context, p: Pager, d: Disk, events: seq<Event>)
    requires Served(ctx, p, d, events)
    ensures var tr := Drive(ctx, p, d, events);
      && p.cursor <= tr.pager.cursor
      && (forall b :: b in tr.batches ==> b != [] && Ascending(b))
      && (forall b, t :: b in tr.batches && t in b ==> p.cursor < t.ts <= ctx.end && t.ts <= tr.pager.cursor)
      && Separated(tr.batches)
    decreases |events|
  {
    if !(p.done || events == []) {
      var ev := events[0];
      var s := Step(ctx, p, d, ev);
      var rest := Drive(ctx, s.pager, s.disk, events[1..]);
      var tr := Drive(ctx, p, d, events);
      assert Served(ctx, s.pager, s.disk, events[1..]);
      StepBatchInWindow(ctx, p, d, ev);
      DriveHandsOverEachRecordOnce(ctx, s.pager, s.disk, events[1..]);
      assert tr.pager == rest.pager;
      if s.batch != [] {
        assert tr.batches == [s.batch] + rest.batches;
        assert forall b :: b in tr.batches ==> b == s.batch || b in rest.batches;
        SeparatedCons(s.batch, rest.batches, s.pager.cursor);
      } else {
        assert tr.batches == rest.batches;
      }
    }
  }

  /** When the window starts after it ends and the server keeps to the lower
      bound, nothing is handed to the sink, the disk is untouched, and the run
      ends at the first successful reply. */
  lemma {:induction false} StartAfterEndHandsOverNothing(ctx: Context, start: int, d: Disk, events: seq<Event>)
    requires start > ctx.end
    requires forall ev :: ev in events && IsPage(ev.response) ==>
      forall t :: t in ev.response.body ==> start < t.ts
    ensures var tr := Drive(ctx, Pager(start, false), d, events);
      && tr.batches == [] && tr.disk == d
      && (tr.pager.done <==> exists ev :: ev in events && IsPage(ev.response))
    decreases |events|
  {
    if events != [] {
      var ev := events[0];
      var s := Step(ctx, Pager(start, false), d, ev);
      if IsPage(ev.response) {
        var body := ev.response.body;
        assert s.batch == [] by {
          if body != [] {
            assert body[|body| - 1] in body;
            forall t | t in body ensures t.ts > ctx.end { }
          }
        }
        assert s.pager.done;
      } else {
        assert s.pager == Pager(start, false) && s.disk == d && s.batch == [];
        StartAfterEndHandsOverNothing(ctx, start, d, events[1..]);
        assert forall e :: e in events[1..] ==> e in events;
        assert forall e :: e in events ==> e == ev || e in events[1..];
      }
    }
  }

  /** Two records, then an empty page fetched after `end`: one batch with both
      records, and the run ends. */
  lemma TwoRecordsThenEmptyPage(cfg: Config, env: Env, d: Disk, symbol: string, a: Trade, b: Trade)
    requires a.ts == 100 && b.ts == 200
    ensures var events := [Event(300, Reply(200, None, [a, b])), Event(2000, Reply(200, None, []))];
      var tr := Drive(Context(symbol, 1000, cfg, env), Pager(0, false), d, events);
      tr.batches == [[a, b]] && tr.pager == Pager(200, true) && tr.used == 2
  {
    var ctx := Context(symbol, 1000, cfg, env);
    var events := [Event(300, Reply(200, None, [a, b])), Event(2000, Reply(200, None, []))];
    var s := Step(ctx, Pager(0, false), d, events[0]);
    assert s.batch == [a, b] && s.pager.cursor == 200 && !s.pager.done;
    var s2 := Step(ctx, s.pager, s.disk, events[1]);
    assert s2.pager == Pager(200, true) && s2.batch == [];
    assert events[1..][0] == events[1] && events[1..][1..] == [];
    var rest := Drive(ctx, s.pager, s.disk, events[1..]);
    DriveUnfold(ctx, s.pager, s.disk, events[1..]);
    assert Drive(ctx, s2.pager, s2.disk, []) == Trace(s2.pager, s2.disk, [], 0);
    assert rest == Trace(Pager(200, true), s2.disk, [], 1);
  }

  /** A single page straddling `end = 150`: only the record at 100 is handed
      over, and the run ends unless the sink raises on that batch. */
  lemma FinalPageFiltered(cfg: Config, env: Env, d: Disk, symbol: string, a: Trade, b: Trade)
    requires a.ts == 100 && b.ts == 200
    ensures var tr := Drive(Context(symbol, 150, cfg, env), Pager(0, false), d, [Event(300, Reply(200, None, [a, b]))]);
      && tr.batches == [[a]] && tr.pager.cursor == 200 && tr.used == 1
      && (tr.pager.done <==> !Processed(d, env, cfg, [a], symbol).raised)
  {
    assert UntilEnd([a, b], 150) == [a] by {
      assert [a, b][1..] == [b];
    }
  }

  /** One pass of the inner loop of `get_trades`: request, classify the reply,
      move the cursor, and decide whether to end or continue, calling the sink
      with the batch. Sleeping is not performed; `pause` says how long the
      pass would sleep. */
  method Pass(fs: FileSystem, cfg: Config, symbol: string, end: int, cursor: int, ev: Event)
    returns (lastTimestamp: int, done: bool, batch: seq<Trade>, raised: bool, pause: int)
    modifies fs
    ensures Step(Context(symbol, end, cfg, fs.env), Pager(cursor, false), old(fs.State()), ev)
         == Round(Pager(lastTimestamp, done), fs.State(), batch, raised, pause)
  {
    lastTimestamp, done, batch, raised, pause := cursor, false, [], false, 0;
    match ev.response {
      case Fault =>
        // the outer handler restarts the inner loop from the current cursor
        pause := CrashPause;
      case Reply(status, retryAfter, trades) =>
        if status == 429 {
          // too many requests: the same lower bound is asked for again
          pause := (if retryAfter.None? then DefaultRetryAfter else retryAfter.value) + 1;
        } else if status != 200 {
          // unexpected status: the same lower bound is asked for again
          pause := ErrorPause;
        } else {
          if |trades| > 0 {
            lastTimestamp := trades[|trades| - 1].ts;
          }
          if ev.now > end && |trades| == 0 {
            done := true;
          } else if lastTimestamp < end {
            if |trades| > 0 {
              batch := trades;
              raised := ProcessTrades(fs, cfg, batch, symbol);
            }
            pause := if raised then CrashPause else BetweenRequests;
          } else {
            var untilEnd := UntilEnd(trades, end);
            if |untilEnd| > 0 {
              batch := untilEnd;
              raised := ProcessTrades(fs, cfg, batch, symbol);
            }
            done := !raised;
            pause := if raised then CrashPause else 0;
          }
        }
    }
  }

  /** `get_trades(sym, start, end)` against a given sequence of events: the
      nested loops run until collection ends or the events run out. */
  method GetTrades(fs: FileSystem, cfg: Config, sym: string, start: int, end: int, events: seq<Event>)
    returns (lastTimestamp: int, done: bool, batches: seq<seq<Trade>>, used: nat)
    modifies fs
    ensures Drive(Context(Normalize(sym), end, cfg, fs.env), Pager(start, false), old(fs.State()), events)
         == Trace(Pager(lastTimestamp, done), fs.State(), batches, used)
  {
    var symbol := Normalize(sym);
    ghost var ctx := Context(symbol, end, cfg, fs.env);
    ghost var whole := Drive(ctx, Pager(start, false), fs.State(), events);
    lastTimestamp, done, batches, used := start, false, [], 0;
    assert events[0..] == events;
    assert whole == Prepend(batches, used, Drive(ctx, Pager(lastTimestamp, done), fs.State(), events[used..]));
    while !done && used < |events|
      invariant used <= |events|
      invariant whole == Prepend(batches, used, Drive(ctx, Pager(lastTimestamp, done), fs.State(), events[used..]))
      decreases |events| - used
    {
      ghost var d, before, from := fs.State(), batches, used;
      ghost var s := Step(ctx, Pager(lastTimestamp, false), d, events[used]);
      ghost var tail: seq<seq<Trade>> := if s.batch == [] then [] else [s.batch];
      ghost var rest := Drive(ctx, s.pager, s.disk, events[used + 1..]);
      assert events[used..][0] == events[used] && events[used..][1..] == events[used + 1..];
      DriveUnfold(ctx, Pager(lastTimestamp, false), d, events[used..]);
      assert Drive(ctx, Pager(lastTimestamp, false), d, events[used..]) == Prepend(tail, 1, rest);
      PrependTwice(before, tail, used, rest);
      assert whole == Prepend(before + tail, used + 1, rest);
      var batch, raised, pause;
      lastTimestamp, done, batch, raised, pause := Pass(fs, cfg, symbol, end, lastTimestamp, events[used]);
      assert Pager(lastTimestamp, done) == s.pager && fs.State() == s.disk && batch == s.batch;
      if batch != [] {
        batches := batches + [batch];
      }
      used := used + 1;
      assert batches == before + tail;
      assert rest == Drive(ctx, Pager(lastTimestamp, done), fs.State(), events[used..]);
    }
    assert events[used..] == [] || done;
    assert batches + [] == batches;
  }

  lemma PrependTwice(a: seq<seq<Trade>>, b: seq<seq<Trade>>, used: nat, tr: Trace)
    ensures Prepend(a, used, Prepend(b, 1, tr)) == Prepend(a + b, used + 1, tr)
  {
    assert a + (b + tr.batches) == (a + b) + tr.batches;
  }
}
