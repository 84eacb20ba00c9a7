/** Moving the files a record points at into the object store
    (`_push_files_to_s3`). */
module Relocation {
  import opened Wrappers
  import opened Types

  /** An external call made while relocating files. */
  datatype Call = Download(url: string) | Upload(key: string, path: string) | Remove(path: string)

  /** The calls made and the list of object locations, or the exception that escaped. */
  datatype Relocation = Relocation(calls: seq<Call>, locations: Result<seq<string>, string>)

  /** The calls made for one identifier value and the location it adds, if any. */
  datatype FileStep = FileStep(calls: seq<Call>, location: Result<Option<string>, string>)

  /** Only absolute HTTP(S) URLs are treated as files; other values are text. */
  predicate IsFileUrl(s: string) {
    "http://" <= s || "https://" <= s
  }

  /** One identifier value: a file URL is downloaded; a downloaded file is
      uploaded under the URL as key and the local copy removed. A failed
      download (`None`) adds nothing; a missing local copy is ignored; any
      other exception escapes. */
  function FileStepOf(env: Env, id: string): FileStep {
    if !IsFileUrl(id) then FileStep([], Ok(None))
    else
      match env.download(id)
      case Err(e) => FileStep([Download(id)], Err(e))
      case Ok(None) => FileStep([Download(id)], Ok(None))
      case Ok(Some(path)) =>
        match env.upload(id, path)
        case Err(e) => FileStep([Download(id), Upload(id, path)], Err(e))
        case Ok(location) =>
          match env.remove(path)
          case RemoveFailed(e) => FileStep([Download(id), Upload(id, path), Remove(path)], Err(e))
          case _ => FileStep([Download(id), Upload(id, path), Remove(path)], Ok(Some(location)))
  }

  /** The identifiers handled one after the other, stopping at the first
      exception. Defined on the prefix handled so far, the way the loop grows it. */
  function Relocate(env: Env, ids: seq<string>): Relocation
    decreases |ids|
  {
    if ids == [] then Relocation([], Ok([]))
    else
      var done := Relocate(env, ids[..|ids| - 1]);
      if done.locations.Err? then done
      else
        var step := FileStepOf(env, ids[|ids| - 1]);
        Relocation(done.calls + step.calls,
          match step.location
          case Err(e) => Err(e)
          case Ok(None) => done.locations
          case Ok(Some(l)) => Ok(done.locations.value + [l]))
  }

  /** `_push_files_to_s3` over the values of the record's `identifier` field. */
  method PushFilesToS3(env: Env, ids: seq<string>) returns (locations: Result<seq<string>, string>, calls: seq<Call>)
    ensures Relocation(calls, locations) == Relocate(env, ids)
  {
    var fileLocations: seq<string> := [];
    calls := [];
    var i := 0;
    while i < |ids|
      invariant 0 <= i <= |ids|
      invariant Relocate(env, ids[..i]) == Relocation(calls, Ok(fileLocations))
    {
      var id := ids[i];
      assert ids[..i + 1][..i] == ids[..i];
      if IsFileUrl(id) {
        calls := calls + [Download(id)];
        var filePath := env.download(id);
        if filePath.Err? {
          RelocateStopsAtError(env, ids, i + 1);
          return Err(filePath.error), calls;
        }
        if filePath.value.Some? {
          var path := filePath.value.value;
          calls := calls + [Upload(id, path)];
          var location := env.upload(id, path);
          if location.Err? {
            RelocateStopsAtError(env, ids, i + 1);
            return Err(location.error), calls;
          }
          fileLocations := fileLocations + [location.value];
          calls := calls + [Remove(path)];
          var removal := env.remove(path);
          if removal.RemoveFailed? {
            RelocateStopsAtError(env, ids, i + 1);
            return Err(removal.error), calls;
          }
        }
      }
      i := i + 1;
    }
    assert ids[..i] == ids;
    locations := Ok(fileLocations);
  }

  // ----- Reference definitions -----

  /** The file URLs among the identifier values, in order. */
  function FileUrls(ids: seq<string>): seq<string> {
    if ids == [] then [] else (if IsFileUrl(ids[0]) then [ids[0]] else []) + FileUrls(ids[1..])
  }

  /** The URLs that were downloaded, in order. */
  function Downloads(calls: seq<Call>): seq<string> {
    if calls == [] then [] else (if calls[0].Download? then [calls[0].url] else []) + Downloads(calls[1..])
  }

  /** The location one URL contributes: its upload, when the download gave a file. */
  function LocationOf(env: Env, url: string): seq<string> {
    match env.download(url)
    case Ok(Some(path)) => (match env.upload(url, path) case Ok(l) => [l] case Err(_) => [])
    case _ => []
  }

  /** The locations of the given URLs, in their order. */
  function LocationsOf(env: Env, urls: seq<string>): seq<string> {
    if urls == [] then [] else LocationOf(env, urls[0]) + LocationsOf(env, urls[1..])
  }

  /** Whether handling this URL raises: its download raises, or its file's
      upload or removal does (a missing file does not count). */
  predicate Raises(env: Env, url: string) {
    match env.download(url)
    case Err(_) => true
    case Ok(None) => false
    case Ok(Some(path)) => env.upload(url, path).Err? || env.remove(path).RemoveFailed?
  }

  /** Whether a call is one the relocation may make: it concerns a file URL, an
      upload sends the file its URL was downloaded to, and a removal deletes a
      file that the download of a file URL produced. */
  ghost predicate Permitted(env: Env, call: Call) {
    match call
    case Download(url) => IsFileUrl(url)
    case Upload(key, path) => IsFileUrl(key) && env.download(key) == Ok(Some(path))
    case Remove(path) => exists url :: IsFileUrl(url) && env.download(url) == Ok(Some(path))
  }

  // ----- Lemmas -----

  lemma {:induction false} FileUrlsSnoc(ids: seq<string>, x: string)
    ensures FileUrls(ids + [x]) == FileUrls(ids) + (if IsFileUrl(x) then [x] else [])
  {
    if ids != [] {
      assert (ids + [x])[1..] == ids[1..] + [x];
      FileUrlsSnoc(ids[1..], x);
    }
  }

  lemma {:induction false} DownloadsAppend(a: seq<Call>, b: seq<Call>)
    ensures Downloads(a + b) == Downloads(a) + Downloads(b)
  {
    if a == [] {
      assert a + b == b;
    } else {
      assert (a + b)[1..] == a[1..] + b;
      DownloadsAppend(a[1..], b);
    }
  }

  lemma {:induction false} LocationsOfSnoc(env: Env, urls: seq<string>, x: string)
    ensures LocationsOf(env, urls + [x]) == LocationsOf(env, urls) + LocationOf(env, x)
  {
    if urls == [] {
      assert LocationsOf(env, [x]) == LocationOf(env, x) + LocationsOf(env, []);
    } else {
      assert (urls + [x])[1..] == urls[1..] + [x];
      LocationsOfSnoc(env, urls[1..], x);
    }
  }

  lemma {:induction false} LocationsOfLength(env: Env, urls: seq<string>)
    ensures |LocationsOf(env, urls)| <= |urls|
  {
    if urls != [] {
      LocationsOfLength(env, urls[1..]);
    }
  }

  lemma DownloadsOfStep(env: Env, id: string)
    ensures Downloads(FileStepOf(env, id).calls) == if IsFileUrl(id) then [id] else []
  {
    var calls := FileStepOf(env, id).calls;
    if IsFileUrl(id) {
      assert calls[0] == Download(id);
      assert Downloads(calls) == [id] + Downloads(calls[1..]);
      if |calls| > 1 {
        assert Downloads(calls[1..]) == Downloads(calls[2..]);
        if |calls| > 2 {
          assert Downloads(calls[2..]) == Downloads(calls[3..]);
        }
      }
    }
  }

  /** Once a prefix of the identifiers has raised, the rest are not looked at. */
  lemma {:induction false} RelocateStopsAtError(env: Env, ids: seq<string>, k: nat)
    requires k <= |ids| && Relocate(env, ids[..k]).locations.Err?
    ensures Relocate(env, ids) == Relocate(env, ids[..k])
    decreases |ids| - k
  {
    if k < |ids| {
      assert ids[..k + 1][..k] == ids[..k];
      RelocateStopsAtError(env, ids, k + 1);
    } else {
      assert ids[..k] == ids;
    }
  }

  /** Every call made is permitted: nothing is downloaded or uploaded for a
      value that is not an HTTP(S) URL. */
  lemma {:induction false} RelocateTouchesOnlyFileUrls(env: Env, ids: seq<string>)
    ensures forall i :: 0 <= i < |Relocate(env, ids).calls| ==> Permitted(env, Relocate(env, ids).calls[i])
  {
    if ids != [] {
      var init, last := ids[..|ids| - 1], ids[|ids| - 1];
      RelocateTouchesOnlyFileUrls(env, init);
      StepCallsPermitted(env, last);
    }
  }

  lemma StepCallsPermitted(env: Env, id: string)
    ensures forall i :: 0 <= i < |FileStepOf(env, id).calls| ==> Permitted(env, FileStepOf(env, id).calls[i])
  {
    var calls := FileStepOf(env, id).calls;
    if |calls| == 3 {
      assert Permitted(env, calls[2]) by {
        assert IsFileUrl(id) && env.download(id) == Ok(Some(calls[2].path));
      }
    }
  }

  /** One identifier value raises exactly when it is a file URL that raises. */
  lemma StepFailsIffRaises(env: Env, id: string)
    ensures FileStepOf(env, id).location.Err? <==> IsFileUrl(id) && Raises(env, id)
  {
  }

  /** After a successful relocation, no file URL among the values raises. */
  lemma {:induction false} RelocateOkNoneRaised(env: Env, ids: seq<string>)
    ensures Relocate(env, ids).locations.Ok? ==>
      forall j :: 0 <= j < |FileUrls(ids)| ==> !Raises(env, FileUrls(ids)[j])
  {
    if ids != [] {
      var init, last := ids[..|ids| - 1], ids[|ids| - 1];
      assert ids == init + [last];
      RelocateOkNoneRaised(env, init);
      FileUrlsSnoc(init, last);
      StepFailsIffRaises(env, last);
    }
  }

  /** The URLs downloaded are the file URLs in order, each once: all of them
      when none raised, and otherwise those up to and including the first one
      that raised. */
  lemma {:induction false} RelocateDownloadsFileUrls(env: Env, ids: seq<string>)
    ensures Downloads(Relocate(env, ids).calls) <= FileUrls(ids)
    ensures Relocate(env, ids).locations.Ok? ==> Downloads(Relocate(env, ids).calls) == FileUrls(ids)
    ensures Relocate(env, ids).locations.Err? ==>
      exists k :: 0 <= k < |FileUrls(ids)|
        && Downloads(Relocate(env, ids).calls) == FileUrls(ids)[..k + 1]
        && Raises(env, FileUrls(ids)[k])
        && forall j :: 0 <= j < k ==> !Raises(env, FileUrls(ids)[j])
  {
    if ids != [] {
      var init, last := ids[..|ids| - 1], ids[|ids| - 1];
      assert ids == init + [last];
      RelocateDownloadsFileUrls(env, init);
      FileUrlsSnoc(init, last);
      var done := Relocate(env, init);
      var urls := FileUrls(ids);
      if done.locations.Ok? {
        var step := FileStepOf(env, last);
        DownloadsAppend(done.calls, step.calls);
        DownloadsOfStep(env, last);
        if step.location.Err? {
          StepFailsIffRaises(env, last);
          RelocateOkNoneRaised(env, init);
          var k := |FileUrls(init)|;
          assert urls == FileUrls(init) + [last];
          assert urls[..k + 1] == urls && urls[k] == last;
          assert forall j :: 0 <= j < k ==> urls[j] == FileUrls(init)[j];
        }
      } else {
        var k :| 0 <= k < |FileUrls(init)|
          && Downloads(done.calls) == FileUrls(init)[..k + 1]
          && Raises(env, FileUrls(init)[k])
          && forall j :: 0 <= j < k ==> !Raises(env, FileUrls(init)[j]);
        assert FileUrls(init) <= urls;
        assert urls[..k + 1] == FileUrls(init)[..k + 1];
        assert forall j :: 0 <= j <= k ==> urls[j] == FileUrls(init)[j];
      }
    }
  }

  /** On success the locations are exactly those of the file URLs whose download
      gave a file, in input order, so there are at most as many as file URLs. */
  lemma {:induction false} RelocateLocations(env: Env, ids: seq<string>)
    ensures Relocate(env, ids).locations.Ok? ==>
      && Relocate(env, ids).locations.value == LocationsOf(env, FileUrls(ids))
      && |Relocate(env, ids).locations.value| <= |FileUrls(ids)|
  {
    if ids != [] {
      var init, last := ids[..|ids| - 1], ids[|ids| - 1];
      assert ids == init + [last];
      RelocateLocations(env, init);
      FileUrlsSnoc(init, last);
      var done, step := Relocate(env, init), FileStepOf(env, last);
      if done.locations.Ok? && step.location.Ok? {
        if IsFileUrl(last) {
          LocationsOfSnoc(env, FileUrls(init), last);
          assert FileUrls(ids) == FileUrls(init) + [last];
          match step.location.value
          case Some(l) =>
            assert LocationOf(env, last) == [l];
          case None =>
            assert LocationOf(env, last) == [];
            assert LocationsOf(env, FileUrls(ids)) == LocationsOf(env, FileUrls(init)) + [];
        } else {
          assert FileUrls(ids) == FileUrls(init) + [];
          assert FileUrls(ids) == FileUrls(init);
        }
      }
    }
    LocationsOfLength(env, FileUrls(ids));
  }

  /** Relocation fails exactly when some file URL raises; a failed download or
      an already-removed file never makes it fail. */
  lemma {:induction false} RelocateFailsIffRaises(env: Env, ids: seq<string>)
    ensures Relocate(env, ids).locations.Err? <==>
      exists i :: 0 <= i < |ids| && IsFileUrl(ids[i]) && Raises(env, ids[i])
  {
    if ids != [] {
      var init, last := ids[..|ids| - 1], ids[|ids| - 1];
      RelocateFailsIffRaises(env, init);
      if exists i :: 0 <= i < |init| && IsFileUrl(init[i]) && Raises(env, init[i]) {
        var i :| 0 <= i < |init| && IsFileUrl(init[i]) && Raises(env, init[i]);
        assert ids[i] == init[i];
      } else if Relocate(env, ids).locations.Err? {
        assert IsFileUrl(ids[|ids| - 1]) && Raises(env, ids[|ids| - 1]);
      } else {
        forall i | 0 <= i < |ids| && IsFileUrl(ids[i])
          ensures !Raises(env, ids[i])
        {
          if i < |init| {
            assert ids[i] == init[i];
          }
        }
      }
    }
  }
}
