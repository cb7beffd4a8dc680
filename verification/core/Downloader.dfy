/**
 The downloader and an updatable file as objects, changed in place by their slots.
 */
module Downloaders {
  import opened Options
  import opened Downloads

  /** Downloads scheduled one after the other. */
  function ScheduleAll(d: Desk, rs: seq<Request>, k: nat): Desk
    requires k <= |rs|
    decreases |rs| - k
  {
    if k == |rs| then d else ScheduleAll(Schedule(d, rs[k]), rs, k + 1)
  }

  /** While a reply is under way, scheduling only appends to the queue. */
  lemma {:induction false} OnlyEnqueues(d: Desk, rs: seq<Request>, k: nat)
    requires k <= |rs| && d.reply
    ensures ScheduleAll(d, rs, k) == d.(queue := d.queue + rs[k..])
    decreases |rs| - k
  {
    if k == |rs| {
      assert d.queue + rs[k..] == d.queue;
    } else {
      OnlyEnqueues(Schedule(d, rs[k]), rs, k + 1);
      assert d.queue + [rs[k]] + rs[k + 1..] == d.queue + rs[k..];
    }
  }

  class Downloader {
    var currentRequest: Option<Request>
    var currentReply: bool
    var pendingRequests: seq<Request>

    ghost function D(): Desk
      reads this
    {
      Desk(pendingRequests, currentRequest, currentReply)
    }

    constructor ()
      ensures D() == Desk([], None, false)
    {
      pendingRequests, currentRequest, currentReply := [], None, false;
    }

    method ScheduleDownload(r: Request)
      modifies this
      ensures D() == Schedule(old(D()), r)
    {
      pendingRequests := pendingRequests + [r];
      StartDownloadIfPending();
    }

    method StartDownloadIfPending()
      modifies this
      ensures D() == StartIfPending(old(D()))
    {
      if currentReply {
        return;
      }
      if pendingRequests == [] {
        return;
      }
      currentRequest, pendingRequests := Some(pendingRequests[0]), pendingRequests[1..];
      currentReply := true;
    }

    /** Sends the terminal signal, during which listeners schedule further downloads, and runs the scope guard. */
    method OnNetworkReplyFinished(reply: Reply, reentrant: seq<Request>) returns (signal: Signal)
      requires currentReply && currentRequest.Some?
      modifies this
      ensures signal == Signal(old(currentRequest).value, KindOf(reply))
      ensures D() == Release(old(D()).(queue := old(D()).queue + reentrant))
    {
      signal := Signal(currentRequest.value, KindOf(reply));
      OnlyEnqueues(D(), reentrant, 0);
      ghost var before := D();
      for k := 0 to |reentrant|
        invariant ScheduleAll(D(), reentrant, k) == ScheduleAll(before, reentrant, 0)
      {
        ScheduleDownload(reentrant[k]);
      }
      assert reentrant[0..] == reentrant;
      currentReply := false;
      StartDownloadIfPending();
    }
  }

  class UpdatableFile {
    const updateUrl: string
    const named: bool
    const defaultPath: string
    var updateRunning: bool
    var connected: bool
    var dirty: bool

    ghost function F(): File
      reads this
    {
      File(updateUrl, named, updateRunning, dirty)
    }

    constructor (url: string, named: bool, defaultPath: string, dirty: bool)
      ensures F() == File(url, named, false, dirty) && !connected && this.defaultPath == defaultPath
    {
      updateUrl, this.named, this.defaultPath, this.dirty := url, named, defaultPath, dirty;
      updateRunning, connected := false, false;
    }

    /** `no` is the number of downloads scheduled so far. */
    method Update(downloader: Downloader, no: nat)
      modifies this`updateRunning, this`connected, downloader
      ensures forall s: State, f: nat ::
                f < |s.files| && s.files[f] == old(F()) && s.desk == old(downloader.D()) && |s.scheduled| == no ==>
                  UpdateStep(s, f).files == s.files[f := F()] && UpdateStep(s, f).desk == downloader.D()
      ensures updateRunning == (old(updateRunning) || named) && dirty == old(dirty)
      ensures connected == (old(connected) || (named && !old(updateRunning)))
    {
      if !updateRunning && named {
        updateRunning := true;
        connected := true;
        downloader.ScheduleDownload(Request(no, updateUrl));
      }
    }

    method CleanupAfterUpdate(kind: Kind)
      modifies this
      ensures F() == File(updateUrl, named, false, old(dirty) && kind == Failure) && !connected
    {
      connected := false;
      if kind != Failure {
        dirty := false;
      }
      updateRunning := false;
    }

    /** Whether the file could be written decides about its own signal, not about the clean-up. */
    method OnDownloadSuccess(url: string, written: bool) returns (updated: bool)
      modifies this
      ensures updated == (written && url == updateUrl)
      ensures url == updateUrl ==> F() == File(updateUrl, named, false, false) && !connected
      ensures url != updateUrl ==> F() == old(F()) && connected == old(connected)
    {
      updated := false;
      if url == updateUrl {
        updated := written;
        CleanupAfterUpdate(Success);
      }
    }

    method OnDownloadFailed(url: string)
      modifies this
      ensures url == updateUrl ==> F() == File(updateUrl, named, false, old(dirty)) && !connected
      ensures url != updateUrl ==> F() == old(F()) && connected == old(connected)
    {
      if url == updateUrl {
        CleanupAfterUpdate(Failure);
      }
    }

    method OnDownloadUnnecessary(url: string)
      modifies this
      ensures url == updateUrl ==> F() == File(updateUrl, named, false, false) && !connected
      ensures url != updateUrl ==> F() == old(F()) && connected == old(connected)
    {
      if url == updateUrl {
        CleanupAfterUpdate(Unnecessary);
      }
    }

    /** The path to use now; a marked file is updated on the way. */
    method LookupPath(downloader: Downloader, no: nat, cached: string, bundled: string) returns (path: string)
      modifies this`updateRunning, this`connected, downloader
      ensures path == if named && cached != "" then cached else if named && bundled != "" then bundled else defaultPath
      ensures named && dirty ==> updateRunning
      ensures !(named && dirty) ==> F() == old(F()) && downloader.D() == old(downloader.D())
    {
      if !named {
        return defaultPath;
      }
      if cached == "" {
        path := if bundled == "" then defaultPath else bundled;
      } else {
        path := cached;
      }
      if dirty {
        Update(downloader, no);
      }
    }
  }
}
