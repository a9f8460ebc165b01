/**
 * The download service: it asks the sanctions repository for a fresh copy of the
 * list, remembers the last file name that came back, and reports the result to
 * the caller's `on_complete`.  The repository's answer (a temporary file's path,
 * or `None` when the request failed) is a parameter; the callback calls are
 * returned as a trace.
 */
module DownloadService {
  import opened Wrappers

  /** Python truthiness of the repository's answer: `None` and `""` are false. */
  predicate Truthy(filename: Option<string>) {
    filename.Some? && filename.value != ""
  }

  /** The cache after one download: the new answer when it is truthy, the old cache otherwise. */
  function Cached(cache: Option<string>, fetched: Option<string>): Option<string> {
    if Truthy(fetched) then fetched else cache
  }

  /** The cache after a series of downloads, one answer after another. */
  function CachedAfter(cache: Option<string>, answers: seq<Option<string>>): Option<string>
    decreases |answers|
  {
    if answers == [] then cache else CachedAfter(Cached(cache, answers[0]), answers[1..])
  }

  /** The last truthy answer of a series, if any. */
  function LastTruthy(answers: seq<Option<string>>): (r: Option<string>)
    ensures r == None || (Truthy(r) && r in answers)
    ensures r == None <==> forall k :: 0 <= k < |answers| ==> !Truthy(answers[k])
    ensures r != None ==> exists i :: 0 <= i < |answers| && answers[i] == r && forall k :: i < k < |answers| ==> !Truthy(answers[k])
    decreases |answers|
  {
    if answers == [] then None
    else
      var n := |answers|;
      if Truthy(answers[n - 1]) then answers[n - 1]
      else
        var init := answers[..n - 1];
        assert forall k :: 0 <= k < n - 1 ==> init[k] == answers[k];
        var r := LastTruthy(init);
        assert r != None ==> exists i :: 0 <= i < n - 1 && init[i] == r && forall k :: i < k < n - 1 ==> !Truthy(init[k]);
        r
  }

  /**
   * After any series of downloads the cache holds the last successful answer;
   * when none succeeded it still holds what it held before.
   */
  lemma {:induction false} CacheKeepsLastSuccess(cache: Option<string>, answers: seq<Option<string>>)
    ensures CachedAfter(cache, answers) == if LastTruthy(answers) == None then cache else LastTruthy(answers)
    decreases |answers|
  {
    if answers != [] {
      var first, rest := answers[0], answers[1..];
      CacheKeepsLastSuccess(Cached(cache, first), rest);
      assert answers == [first] + rest;
      LastOfTail(first, rest);
      assert [first][..0] == [];
    }
  }

  /** The last truthy answer of `[first] + rest` is that of `rest` when there is one, and otherwise the first answer's. */
  lemma {:induction false} LastOfTail(first: Option<string>, rest: seq<Option<string>>)
    ensures LastTruthy([first] + rest) == if LastTruthy(rest) == None then LastTruthy([first]) else LastTruthy(rest)
    decreases |rest|
  {
    var all := [first] + rest;
    if rest == [] {
      assert all == [first];
    } else {
      var n := |rest|;
      assert all[|all| - 1] == rest[n - 1];
      assert all[..|all| - 1] == [first] + rest[..n - 1];
      LastOfTail(first, rest[..n - 1]);
    }
  }

  /** A truthy answer is never lost: the cache is truthy after a series that holds one, and stays truthy once it is. */
  lemma TruthyCacheStays(cache: Option<string>, answers: seq<Option<string>>)
    requires Truthy(cache) || exists k :: 0 <= k < |answers| && Truthy(answers[k])
    ensures Truthy(CachedAfter(cache, answers))
  {
    CacheKeepsLastSuccess(cache, answers);
    if !Truthy(cache) {
      var k :| 0 <= k < |answers| && Truthy(answers[k]);
      TruthyFound(answers, k);
    }
  }

  /** A series that holds a truthy answer has a last one. */
  lemma {:induction false} TruthyFound(answers: seq<Option<string>>, k: nat)
    requires k < |answers| && Truthy(answers[k])
    ensures Truthy(LastTruthy(answers))
    decreases |answers|
  {
    var n := |answers|;
    if !Truthy(answers[n - 1]) {
      assert k < n - 1;
      assert answers[..n - 1][k] == answers[k];
      TruthyFound(answers[..n - 1], k);
    }
  }

  /** The values `on_complete` is called with. */
  type Calls = seq<Option<string>>

  class DownloadService {
    var cachedFilename: Option<string>

    /** `DownloadService(sanctions_repository)`: nothing is cached yet. */
    constructor ()
      ensures cachedFilename == None
    {
      cachedFilename := None;
    }

    /**
     * `download(on_complete)`: `fetched` is what the repository's download
     * returned.  The result is that answer unchanged; the cache takes it only
     * when it is truthy; `on_complete`, when given, is called exactly once with it.
     */
    method Download(fetched: Option<string>, onComplete: bool) returns (filename: Option<string>, calls: Calls)
      modifies this
      ensures filename == fetched
      ensures cachedFilename == Cached(old(cachedFilename), fetched)
      ensures calls == if onComplete then [fetched] else []
    {
      filename := fetched;
      if Truthy(filename) {
        cachedFilename := filename;
      }
      calls := if onComplete then [filename] else [];
    }

    /**
     * The body of `download_async`'s thread: `download()` without a callback,
     * then `on_complete(filename)`, so the callback is called exactly once.
     */
    method DownloadThread(fetched: Option<string>, onComplete: bool) returns (calls: Calls)
      modifies this
      ensures cachedFilename == Cached(old(cachedFilename), fetched)
      ensures calls == if onComplete then [fetched] else []
    {
      var filename, inner := Download(fetched, false);
      assert inner == [];
      calls := if onComplete then [filename] else [];
    }
  }

  /** A failed download after a successful one leaves the earlier file name in the cache. */
  method FailureKeepsCache(good: string, bad: Option<string>) returns (before: Option<string>, after: Option<string>)
    requires good != "" && !Truthy(bad)
    ensures before == after == Some(good)
  {
    var service := new DownloadService();
    var _, _ := service.Download(Some(good), false);
    before := service.cachedFilename;
    var _, _ := service.Download(bad, true);
    after := service.cachedFilename;
  }
}
