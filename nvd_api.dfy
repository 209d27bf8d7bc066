/**
 * `NVD_API` (support/scripts/nvd_api_v2.py): the paginated download with
 * its commit and checkpoint rules, and the throttle of `check_for_updates`.
 * HTTP, the clock and the derived class's `save_to_db` are inputs: a page
 * oracle, integer seconds, and a save hook. Times are seconds since an
 * arbitrary epoch, all in UTC.
 */
module NvdApi {
  import opened Optional

  /** `NVD_TIMESTAMP_SUBTRACT_MINUTES`, in seconds. */
  const TimestampSubtractSeconds: int := 1 * 60

  /** `NVD_CHECK_TIMEOUT_SECONDS`. */
  const CheckTimeoutSeconds: int := 120 * 60

  /** The `args` of one request. */
  datatype Request = Request(startIndex: int, lastModStartDate: Option<int>, lastModEndDate: Option<int>)

  /** The fields of a downloaded page that `download` reads; the rest goes to the save hook. */
  datatype Page = Page(resultsPerPage: int, totalResults: int, startIndex: int, timestamp: int)

  /** What `download` does to the outside world, in order. */
  datatype Event = Get(request: Request) | Save(page: Page) | Commit | WriteMeta(lastUpdate: int)

  /** The result of `download`, the events it caused, and the checkpoint it wrote, if any. */
  datatype Outcome = Outcome(ok: bool, events: seq<Event>, checkpoint: Option<int>)

  /**
   * Every page that is not final moves forward: its own index plus its
   * size is past the requested index, and its total is at most `maxTotal`.
   * A final page (index plus size reaching its total, `resultsPerPage` 0
   * included) is unconstrained. Without this the loop of `download` can
   * request pages forever.
   */
  ghost predicate FeedAdvances(server: Request -> Option<Page>, maxTotal: nat)
  {
    forall r :: server(r).Some? ==> Advances(r, server(r).value, maxTotal)
  }

  /** A page served for `r` is final, or moves past `r`'s index without exceeding `maxTotal`. */
  predicate Advances(r: Request, p: Page, maxTotal: nat)
  {
    p.startIndex + p.resultsPerPage < p.totalResults ==>
      p.startIndex + p.resultsPerPage > r.startIndex && p.totalResults <= maxTotal
  }

  /** `events` happened first, then the outcome `o`. */
  function Then(events: seq<Event>, o: Outcome): Outcome
  {
    Outcome(o.ok, events + o.events, o.checkpoint)
  }

  /** Prefixing in two steps is prefixing the concatenation. */
  lemma ThenThen(a: seq<Event>, b: seq<Event>, o: Outcome)
    ensures Then(a, Then(b, o)) == Then(a + b, o)
  {
    assert a + (b + o.events) == (a + b) + o.events;
  }

  /** The rest of a download that requests index `start` next. */
  function Run(server: Request -> Option<Page>, save: Page -> bool,
               since: Option<int>, until: Option<int>, start: int, maxTotal: nat): Outcome
    requires FeedAdvances(server, maxTotal) && start <= maxTotal
    decreases maxTotal - start
  {
    var request := Request(start, since, until);
    match server(request)
    case None => Outcome(false, [Get(request)], None)
    case Some(p) =>
      var next := p.startIndex + p.resultsPerPage;
      if !save(p) then Outcome(false, [Get(request), Save(p)], None)
      else if next >= p.totalResults then
        Outcome(true, [Get(request), Save(p), WriteMeta(p.timestamp - TimestampSubtractSeconds), Commit],
                Some(p.timestamp - TimestampSubtractSeconds))
      else Then([Get(request), Save(p), Commit], Run(server, save, since, until, next, maxTotal))
  }

  /** The date window of `download(last_update)`: both ends or neither. */
  function WindowOf(lastUpdate: Option<int>, now: int): (Option<int>, Option<int>)
  {
    if lastUpdate.Some? then (lastUpdate, Some(now)) else (None, None)
  }

  /** The whole of `download(last_update)`, started at index 0. */
  function DownloadRun(server: Request -> Option<Page>, save: Page -> bool,
                    lastUpdate: Option<int>, now: int, maxTotal: nat): Outcome
    requires FeedAdvances(server, maxTotal)
  {
    var (since, until) := WindowOf(lastUpdate, now);
    Run(server, save, since, until, 0, maxTotal)
  }

  /** `check_for_updates` runs a download unless the stored update is less than two hours old. */
  function ShouldDownload(meta: Option<int>, now: int): (r: bool)
    ensures r <==> meta.None? || now >= meta.value + 120 * 60
  {
    !(meta.Some? && now - meta.value < CheckTimeoutSeconds)
  }

  // ---------------------------------------------------------------- properties of a run

  /** A page that is saved but not final is committed, and the run goes on at its reported next index. */
  lemma RunStep(server: Request -> Option<Page>, save: Page -> bool,
                since: Option<int>, until: Option<int>, start: int, maxTotal: nat)
    requires FeedAdvances(server, maxTotal) && start <= maxTotal
    requires server(Request(start, since, until)).Some?
    requires save(server(Request(start, since, until)).value)
    requires var p := server(Request(start, since, until)).value; p.startIndex + p.resultsPerPage < p.totalResults
    ensures var p := server(Request(start, since, until)).value;
      var next := p.startIndex + p.resultsPerPage;
      && start < next <= maxTotal
      && Run(server, save, since, until, start, maxTotal) ==
           Then([Get(Request(start, since, until)), Save(p), Commit], Run(server, save, since, until, next, maxTotal))
  {
  }

  /** The three ways a run stops at the page served for `start`. */
  lemma RunStops(server: Request -> Option<Page>, save: Page -> bool,
                 since: Option<int>, until: Option<int>, start: int, maxTotal: nat)
    requires FeedAdvances(server, maxTotal) && start <= maxTotal
    ensures var request := Request(start, since, until);
      var o := Run(server, save, since, until, start, maxTotal);
      && (server(request).None? ==> o == Outcome(false, [Get(request)], None))
      && (server(request).Some? && !save(server(request).value) ==>
            o == Outcome(false, [Get(request), Save(server(request).value)], None))
      && (server(request).Some? && save(server(request).value) &&
          server(request).value.startIndex + server(request).value.resultsPerPage >= server(request).value.totalResults ==>
            var t := server(request).value.timestamp - TimestampSubtractSeconds;
            o == Outcome(true, [Get(request), Save(server(request).value), WriteMeta(t), Commit], Some(t)))
  {
  }

  /** The first request asks for index `start`, with the window of the download. */
  lemma RunStartsWithRequest(server: Request -> Option<Page>, save: Page -> bool,
                             since: Option<int>, until: Option<int>, start: int, maxTotal: nat)
    requires FeedAdvances(server, maxTotal) && start <= maxTotal
    ensures |Run(server, save, since, until, start, maxTotal).events| >= 1
    ensures Run(server, save, since, until, start, maxTotal).events[0] == Get(Request(start, since, until))
  {
  }

  /** Whether the run goes on after the page served for `start`. */
  predicate Continues(server: Request -> Option<Page>, save: Page -> bool,
                      since: Option<int>, until: Option<int>, start: int)
  {
    var content := server(Request(start, since, until));
    content.Some? && save(content.value) &&
    content.value.startIndex + content.value.resultsPerPage < content.value.totalResults
  }

  /**
   * Success and the checkpoint go together, and success happens only on a
   * page whose reported index plus size reaches its total, after that
   * page was saved: the checkpoint is that page's timestamp minus a minute,
   * and the run ends by writing it and committing.
   */
  lemma {:induction false} RunSucceedsOnFinalPage(server: Request -> Option<Page>, save: Page -> bool,
                                                  since: Option<int>, until: Option<int>, start: int, maxTotal: nat)
    requires FeedAdvances(server, maxTotal) && start <= maxTotal
    ensures var o := Run(server, save, since, until, start, maxTotal);
      o.ok <==> o.checkpoint.Some?
    ensures var o := Run(server, save, since, until, start, maxTotal);
      o.ok ==>
        && |o.events| >= 3
        && o.events[|o.events| - 3].Save?
        && var p := o.events[|o.events| - 3].page;
        && save(p) && p.startIndex + p.resultsPerPage >= p.totalResults
        && o.checkpoint == Some(p.timestamp - 60)
        && o.events[|o.events| - 2] == WriteMeta(p.timestamp - 60)
        && o.events[|o.events| - 1] == Commit
    decreases maxTotal - start
  {
    if Continues(server, save, since, until, start) {
      RunStep(server, save, since, until, start, maxTotal);
      var p := server(Request(start, since, until)).value;
      var next := p.startIndex + p.resultsPerPage;
      RunSucceedsOnFinalPage(server, save, since, until, next, maxTotal);
      var rest := Run(server, save, since, until, next, maxTotal).events;
      var events := Run(server, save, since, until, start, maxTotal).events;
      if |rest| >= 3 {
        assert events[|events| - 3] == rest[|rest| - 3];
        assert events[|events| - 2] == rest[|rest| - 2];
        assert events[|events| - 1] == rest[|rest| - 1];
      }
    }
  }

  /** A failed run ends at a missing page or at a page the hook did not save, and writes no checkpoint. */
  lemma {:induction false} RunFailure(server: Request -> Option<Page>, save: Page -> bool,
                                      since: Option<int>, until: Option<int>, start: int, maxTotal: nat)
    requires FeedAdvances(server, maxTotal) && start <= maxTotal
    ensures var o := Run(server, save, since, until, start, maxTotal);
      !o.ok ==>
        && (forall k :: 0 <= k < |o.events| ==> !o.events[k].WriteMeta?)
        && ((o.events[|o.events| - 1].Get? && server(o.events[|o.events| - 1].request).None?) ||
            (o.events[|o.events| - 1].Save? && !save(o.events[|o.events| - 1].page)))
    decreases maxTotal - start
  {
    if Continues(server, save, since, until, start) {
      RunStep(server, save, since, until, start, maxTotal);
      var p := server(Request(start, since, until)).value;
      var next := p.startIndex + p.resultsPerPage;
      RunFailure(server, save, since, until, next, maxTotal);
      RunStartsWithRequest(server, save, since, until, next, maxTotal);
      var rest := Run(server, save, since, until, next, maxTotal);
      var o := Run(server, save, since, until, start, maxTotal);
      assert o.events[|o.events| - 1] == rest.events[|rest.events| - 1];
      assert o.events[0].Get? && o.events[1].Save? && o.events[2] == Commit;
      forall k | 3 <= k < |o.events|
        ensures o.events[k] == rest.events[k - 3]
      {
      }
    }
  }

  /** The checkpoint is written only as the last event but one, and is followed by a commit. */
  predicate MetaLast(events: seq<Event>)
  {
    forall k :: 0 <= k < |events| && events[k].WriteMeta? ==> k == |events| - 2 && events[k + 1] == Commit
  }

  /** A committed page in front of a run keeps `MetaLast`. */
  lemma MetaLastAfterPage(request: Request, p: Page, rest: seq<Event>)
    requires MetaLast(rest)
    ensures MetaLast([Get(request), Save(p), Commit] + rest)
  {
    var events := [Get(request), Save(p), Commit] + rest;
    forall k | 3 <= k < |events|
      ensures events[k] == rest[k - 3]
    {
    }
  }

  /** The checkpoint is written only as the last event but one, and is followed by the final commit. */
  lemma {:induction false} RunWritesMetaLast(server: Request -> Option<Page>, save: Page -> bool,
                                             since: Option<int>, until: Option<int>, start: int, maxTotal: nat)
    requires FeedAdvances(server, maxTotal) && start <= maxTotal
    ensures MetaLast(Run(server, save, since, until, start, maxTotal).events)
    decreases maxTotal - start
  {
    RunStops(server, save, since, until, start, maxTotal);
    if Continues(server, save, since, until, start) {
      RunStep(server, save, since, until, start, maxTotal);
      var p := server(Request(start, since, until)).value;
      var next := p.startIndex + p.resultsPerPage;
      RunWritesMetaLast(server, save, since, until, next, maxTotal);
      MetaLastAfterPage(Request(start, since, until), p, Run(server, save, since, until, next, maxTotal).events);
    }
  }

  /**
   * The request at `k` follows a page that was served for the request
   * three events earlier, saved and committed, and asks for that page's
   * reported index plus its size, with the window `since`..`until`.
   */
  predicate FollowsSavedPage(server: Request -> Option<Page>, save: Page -> bool,
                             since: Option<int>, until: Option<int>, events: seq<Event>, k: int)
    requires 3 <= k < |events|
  {
    && events[k - 1] == Commit
    && events[k - 2].Save?
    && save(events[k - 2].page)
    && events[k - 3].Get?
    && server(events[k - 3].request) == Some(events[k - 2].page)
    && events[k] == Get(Request(events[k - 2].page.startIndex + events[k - 2].page.resultsPerPage, since, until))
  }

  /** Every request after the first follows a saved and committed page, as `FollowsSavedPage` says. */
  predicate RequestsFollowPages(server: Request -> Option<Page>, save: Page -> bool,
                                since: Option<int>, until: Option<int>, events: seq<Event>)
  {
    forall k :: 0 < k < |events| && events[k].Get? ==>
      k >= 3 && FollowsSavedPage(server, save, since, until, events, k)
  }

  /** A page served, saved and committed in front of a run that asks for its next index keeps the property. */
  lemma FollowsAfterPage(server: Request -> Option<Page>, save: Page -> bool,
                         since: Option<int>, until: Option<int>, request: Request, p: Page, rest: seq<Event>)
    requires server(request) == Some(p) && save(p) && request.lastModStartDate == since && request.lastModEndDate == until
    requires rest != [] && rest[0] == Get(Request(p.startIndex + p.resultsPerPage, since, until))
    requires RequestsFollowPages(server, save, since, until, rest)
    ensures RequestsFollowPages(server, save, since, until, [Get(request), Save(p), Commit] + rest)
  {
    var events := [Get(request), Save(p), Commit] + rest;
    assert FollowsSavedPage(server, save, since, until, events, 3);
    forall k | 3 < k < |events| && events[k].Get?
      ensures FollowsSavedPage(server, save, since, until, events, k)
    {
      assert events[k] == rest[k - 3];
      assert FollowsSavedPage(server, save, since, until, rest, k - 3);
      assert events[k - 1] == rest[k - 4];
      assert events[k - 2] == rest[k - 5];
      assert events[k - 3] == rest[k - 6];
    }
  }

  /**
   * Every request after the first follows a page that was saved and then
   * committed, and asks for that page's reported index plus its size (not
   * the index that was sent), with the same window.
   */
  lemma {:induction false} RunNextRequest(server: Request -> Option<Page>, save: Page -> bool,
                                          since: Option<int>, until: Option<int>, start: int, maxTotal: nat)
    requires FeedAdvances(server, maxTotal) && start <= maxTotal
    ensures RequestsFollowPages(server, save, since, until, Run(server, save, since, until, start, maxTotal).events)
    decreases maxTotal - start
  {
    if Continues(server, save, since, until, start) {
      RunStep(server, save, since, until, start, maxTotal);
      var p := server(Request(start, since, until)).value;
      var next := p.startIndex + p.resultsPerPage;
      RunNextRequest(server, save, since, until, next, maxTotal);
      RunStartsWithRequest(server, save, since, until, next, maxTotal);
      FollowsAfterPage(server, save, since, until, Request(start, since, until), p,
                       Run(server, save, since, until, next, maxTotal).events);
    } else {
      RunSingleRequest(server, save, since, until, start, maxTotal);
      NoLaterRequest(server, save, since, until, Run(server, save, since, until, start, maxTotal).events);
    }
  }

  /** A run that stops at its first page makes no further request. */
  lemma RunSingleRequest(server: Request -> Option<Page>, save: Page -> bool,
                         since: Option<int>, until: Option<int>, start: int, maxTotal: nat)
    requires FeedAdvances(server, maxTotal) && start <= maxTotal
    requires !Continues(server, save, since, until, start)
    ensures var events := Run(server, save, since, until, start, maxTotal).events;
      forall k :: 0 < k < |events| ==> !events[k].Get?
  {
    RunStops(server, save, since, until, start, maxTotal);
  }

  /** A run that makes a single request satisfies `RequestsFollowPages` trivially. */
  lemma NoLaterRequest(server: Request -> Option<Page>, save: Page -> bool,
                       since: Option<int>, until: Option<int>, events: seq<Event>)
    requires forall k :: 0 < k < |events| ==> !events[k].Get?
    ensures RequestsFollowPages(server, save, since, until, events)
  {
  }

  /** With no stored update the requests carry no date window; with one, both ends are set. */
  lemma RunWindow(server: Request -> Option<Page>, save: Page -> bool,
                  lastUpdate: Option<int>, now: int, maxTotal: nat)
    requires FeedAdvances(server, maxTotal)
    ensures var o := DownloadRun(server, save, lastUpdate, now, maxTotal);
      forall k :: 0 <= k < |o.events| && o.events[k].Get? ==>
        && (o.events[k].request.lastModStartDate.Some? <==> lastUpdate.Some?)
        && (o.events[k].request.lastModEndDate.Some? <==> lastUpdate.Some?)
        && (lastUpdate.Some? ==>
              o.events[k].request.lastModStartDate == lastUpdate && o.events[k].request.lastModEndDate == Some(now))
  {
    var (since, until) := WindowOf(lastUpdate, now);
    var o := DownloadRun(server, save, lastUpdate, now, maxTotal);
    RunNextRequest(server, save, since, until, 0, maxTotal);
    RunStartsWithRequest(server, save, since, until, 0, maxTotal);
    forall k | 0 < k < |o.events| && o.events[k].Get?
      ensures o.events[k].request.lastModStartDate == since && o.events[k].request.lastModEndDate == until
    {
      assert FollowsSavedPage(server, save, since, until, o.events, k);
    }
  }

  /**
   * A feed of 3000 results served 2000 at a time: the second request asks
   * for index 2000, and the checkpoint is the last page's timestamp minus a
   * minute.
   */
  lemma TwoPageDownload()
    ensures var server := (r: Request) =>
              if r.startIndex == 0 then Some(Page(2000, 3000, 0, 1000))
              else if r.startIndex == 2000 then Some(Page(2000, 3000, 2000, 2000))
              else None;
            var o := DownloadRun(server, (p: Page) => true, None, 5000, 3000);
            o == Outcome(true,
                         [Get(Request(0, None, None)), Save(Page(2000, 3000, 0, 1000)), Commit,
                          Get(Request(2000, None, None)), Save(Page(2000, 3000, 2000, 2000)),
                          WriteMeta(1940), Commit],
                         Some(1940))
  {
    var server := (r: Request) =>
      if r.startIndex == 0 then Some(Page(2000, 3000, 0, 1000))
      else if r.startIndex == 2000 then Some(Page(2000, 3000, 2000, 2000))
      else None;
    var save := (p: Page) => true;
    assert FeedAdvances(server, 3000);
    var second := Run(server, save, None, None, 2000, 3000);
    assert second == Outcome(true, [Get(Request(2000, None, None)), Save(Page(2000, 3000, 2000, 2000)),
                                    WriteMeta(1940), Commit], Some(1940));
  }

  /**
   * An update with nothing new: the server answers with an empty final page
   * (`resultsPerPage` and `totalResults` 0). The single page is saved, the
   * checkpoint is its timestamp minus a minute, and the download succeeds.
   */
  lemma EmptyFeedFinishes(save: Page -> bool, lastUpdate: int, now: int, timestamp: int)
    requires save(Page(0, 0, 0, timestamp))
    ensures var server := (r: Request) => Some(Page(0, 0, 0, timestamp));
      && FeedAdvances(server, 0)
      && DownloadRun(server, save, Some(lastUpdate), now, 0) ==
           Outcome(true, [Get(Request(0, Some(lastUpdate), Some(now))), Save(Page(0, 0, 0, timestamp)),
                          WriteMeta(timestamp - 60), Commit], Some(timestamp - 60))
  {
    var server := (r: Request) => Some(Page(0, 0, 0, timestamp));
    assert FeedAdvances(server, 0);
    RunStops(server, save, Some(lastUpdate), Some(now), 0, 0);
  }

  /**
   * One pass of the loop of `download`: requests index `startIndex`, hands
   * the page to the save hook, and either stops (a missing page, a refused
   * page, or the final page with its checkpoint) or commits and returns the
   * page's reported next index.
   */
  method FetchPage(server: Request -> Option<Page>, save: Page -> bool,
                   since: Option<int>, until: Option<int>, startIndex: int, ghost maxTotal: nat)
    returns (stop: bool, ok: bool, events: seq<Event>, checkpoint: Option<int>, next: int)
    requires FeedAdvances(server, maxTotal) && startIndex <= maxTotal
    ensures stop ==> Run(server, save, since, until, startIndex, maxTotal) == Outcome(ok, events, checkpoint)
    ensures !stop ==>
      && startIndex < next <= maxTotal
      && Run(server, save, since, until, startIndex, maxTotal) ==
           Then(events, Run(server, save, since, until, next, maxTotal))
  {
    var request := Request(startIndex, since, until);
    RunStops(server, save, since, until, startIndex, maxTotal);
    var content := server(request);
    if content.None? {
      return true, false, [Get(request)], None, startIndex;
    }
    var page := content.value;
    next := page.startIndex + page.resultsPerPage;
    var saved := save(page);
    if !saved {
      return true, false, [Get(request), Save(page)], None, next;
    }
    if next >= page.totalResults {
      var timestamp := page.timestamp - TimestampSubtractSeconds;
      return true, true, [Get(request), Save(page), WriteMeta(timestamp), Commit], Some(timestamp), next;
    }
    RunStep(server, save, since, until, startIndex, maxTotal);
    stop, ok, events, checkpoint := false, false, [Get(request), Save(page), Commit], None;
  }

  /**
   * The loop of `download(last_update)`: requests page after page, saving
   * each and committing it, until a page is missing, the hook refuses a
   * page, or the page that reaches the total writes the checkpoint.
   * `events` is what the loop does to the network and the database, in
   * order, and `checkpoint` the `last_update` it writes, if any. `now` is
   * the clock read for `lastModEndDate`.
   */
  method Pages(lastUpdate: Option<int>, now: int, server: Request -> Option<Page>, save: Page -> bool,
               ghost maxTotal: nat)
    returns (ok: bool, events: seq<Event>, checkpoint: Option<int>)
    requires FeedAdvances(server, maxTotal)
    ensures var o := DownloadRun(server, save, lastUpdate, now, maxTotal);
      ok == o.ok && events == o.events && checkpoint == o.checkpoint
  {
    var since: Option<int> := None;
    var until: Option<int> := None;
    if lastUpdate.Some? {
      since := lastUpdate;
      until := Some(now);
    }
    assert (since, until) == WindowOf(lastUpdate, now);
    var startIndex := 0;
    // The events of the pages already committed.
    var done: seq<Event> := [];
    while true
      invariant 0 <= startIndex <= maxTotal
      invariant DownloadRun(server, save, lastUpdate, now, maxTotal) ==
        Then(done, Run(server, save, since, until, startIndex, maxTotal))
      decreases maxTotal - startIndex
    {
      var stop, pageOk, step, next;
      stop, pageOk, step, checkpoint, next := FetchPage(server, save, since, until, startIndex, maxTotal);
      if stop {
        return pageOk, done + step, checkpoint;
      }
      ThenThen(done, step, Run(server, save, since, until, next, maxTotal));
      done := done + step;
      startIndex := next;
    }
  }

  // ---------------------------------------------------------------- the stateful class

  class NvdApi {
    /** The `meta` table: `last_update` of row 0, if the row exists. */
    var meta: Option<int>
    /** Everything written to the network and the database so far. */
    ghost var log: seq<Event>

    constructor (stored: Option<int>)
      ensures meta == stored && log == []
    {
      meta := stored;
      log := [];
    }

    /** `download(last_update)`: runs the page loop, then records its events and checkpoint. */
    method Download(lastUpdate: Option<int>, now: int, server: Request -> Option<Page>, save: Page -> bool,
                    ghost maxTotal: nat)
      returns (ok: bool)
      requires FeedAdvances(server, maxTotal)
      modifies this
      ensures var o := DownloadRun(server, save, lastUpdate, now, maxTotal);
        && ok == o.ok
        && log == old(log) + o.events
        && meta == (if o.checkpoint.Some? then o.checkpoint else old(meta))
    {
      ghost var events;
      var checkpoint;
      ok, events, checkpoint := Pages(lastUpdate, now, server, save, maxTotal);
      if checkpoint.Some? {
        meta := checkpoint;
      }
      log := log + events;
    }

    /**
     * `check_for_updates`: with a stored update less than two hours before
     * `now`, nothing happens; otherwise a download runs from the stored
     * update (or from scratch), with `requestNow` as its own clock read.
     */
    method CheckForUpdates(now: int, requestNow: int, server: Request -> Option<Page>, save: Page -> bool,
                           ghost maxTotal: nat)
      requires FeedAdvances(server, maxTotal)
      modifies this
      ensures !ShouldDownload(old(meta), now) ==> meta == old(meta) && log == old(log)
      ensures ShouldDownload(old(meta), now) ==>
        var o := DownloadRun(server, save, old(meta), requestNow, maxTotal);
        && log == old(log) + o.events
        && meta == (if o.checkpoint.Some? then o.checkpoint else old(meta))
    {
      if meta.Some? {
        var delta := now - meta.value;
        if delta < CheckTimeoutSeconds {
          return;
        }
      }
      var ok := Download(meta, requestNow, server, save, maxTotal);
    }
  }
}
