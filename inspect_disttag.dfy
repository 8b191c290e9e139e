/**
 * The distribution-tag inspection as the program runs it: the run state
 * (`struct rpminspect`) holds the package peers and the result list that
 * `add_result` appends to, and the two drivers of lib/inspect_disttag.c
 * work on it in place.
 */
module InspectDisttag {
  import opened Results
  import opened SpecText
  import opened DisttagSpec

  /**
   * The `getline` loop: read lines, cut each at its line end, and stop at
   * the first one that starts with `%changelog` or `Release:`.
   */
  method ScanSpec(lines: seq<string>) returns (buf: Option<string>)
    ensures buf == StopLine(lines)
  {
    var i := 0;
    buf := None;
    while i < |lines|
      invariant 0 <= i <= |lines|
      invariant StopLine(lines) == StopLine(lines[i..])
    {
      var line := Trim(lines[i]);
      if HasPrefix(line, ChangelogMarker) {
        buf := Some(line);
        break;
      }
      if HasPrefix(line, ReleaseMarker) {
        buf := Some(line);
        break;
      }
      assert lines[i..][1..] == lines[i + 1..];
      i := i + 1;
    }
  }

  /** The part of `struct rpminspect` this inspection uses. */
  class Rpminspect {
    var peers: seq<Peer>
    var results: seq<Result>

    constructor (peers: seq<Peer>)
      ensures this.peers == peers && results == []
    {
      this.peers := peers;
      results := [];
    }

    /** `add_result`: append one record. */
    method AddResult(r: Result)
      modifies this`results
      ensures results == old(results) + [r]
    {
      results := results + [r];
    }

    /**
     * `disttag_driver`: examine one file, appending at most one finding;
     * return false exactly when a finding was appended.
     */
    method DisttagDriver(file: FileEntry) returns (ok: bool)
      modifies this`results
      ensures ok <==> DriverPasses(file)
      ensures results == old(results) + Appended(DriverFinding(file))
    {
      if !file.rpmHeader.isSource {
        return true;
      }
      var specfile := file.rpmHeader.name + ".spec";
      if file.localpath != specfile {
        return true;
      }
      if file.contents.Unopenable? {
        return true;
      }
      var buf := ScanSpec(file.contents.lines);
      ok := true;
      if buf.None? {
        AddResult(DisttagBad(MissingRelease, buf));
        ok := false;
      } else if Contains(buf.value, DistWord) && !Contains(buf.value, DistMacro) {
        AddResult(DisttagBad(WrongForm, buf));
        ok := false;
      } else if !Contains(buf.value, DistMacro) {
        AddResult(DisttagBad(MissingDist, buf));
        ok := false;
      }
    }

    /**
     * The inner walk over one peer's after-build files: call the driver on
     * each.  `last` is the last call's return value (true for no call),
     * `all` is true when every call returned true.
     */
    method DriveFiles(files: seq<FileEntry>) returns (last: bool, all: bool)
      modifies this`results
      ensures results == old(results) + DriverFindings(files)
      ensures last == LastPasses(files)
      ensures all == (DriverFindings(files) == [])
    {
      last, all := true, true;
      var j := 0;
      while j < |files|
        invariant 0 <= j <= |files|
        invariant results == old(results) + DriverFindings(files[..j])
        invariant last == LastPasses(files[..j])
        invariant all == (DriverFindings(files[..j]) == [])
      {
        DriverFindingsStep(files, j);
        AppendTwice(old(results), DriverFindings(files[..j]), Appended(DriverFinding(files[j])));
        last := DisttagDriver(files[j]);
        if !last {
          all := false;
        }
        j := j + 1;
      }
      assert files[..j] == files;
    }

    /**
     * The peer loop of `inspect_disttag`: skip every peer whose after header
     * is not a source package or that has no after-build files, and run the
     * driver on every after-build file of the others.  `src` is the C flag
     * of that name, `last` the C `result` flag (overwritten by each call),
     * and `all` is true when every call returned true.
     */
    method WalkPeers(ps: seq<Peer>) returns (src: bool, last: bool, all: bool)
      modifies this`results
      ensures results == old(results) + DriverFindings(VisitedFiles(ps))
      ensures src == (|VisitedFiles(ps)| > 0)
      ensures last == LastPasses(VisitedFiles(ps))
      ensures all == (DriverFindings(VisitedFiles(ps)) == [])
    {
      src, last, all := false, true, true;
      var i := 0;
      ghost var visited: seq<FileEntry> := [];
      ghost var found: seq<Result> := [];
      while i < |ps|
        invariant 0 <= i <= |ps|
        invariant visited == VisitedFiles(ps[..i])
        invariant found == DriverFindings(visited)
        invariant src == (visited != [])
        invariant last == LastPasses(visited)
        invariant all == (found == [])
        invariant results == old(results) + found
      {
        var peer := ps[i];
        VisitedFilesStep(ps, i);
        if peer.afterHdr.isSource && |peer.afterFiles| > 0 {
          src := true;
          var peerAll;
          AppendTwice(old(results), found, DriverFindings(peer.afterFiles));
          last, peerAll := DriveFiles(peer.afterFiles);
          all := all && peerAll;
          LastPassesConcat(visited, peer.afterFiles);
          DriverFindingsConcat(visited, peer.afterFiles);
          found := found + DriverFindings(peer.afterFiles);
          visited := visited + peer.afterFiles;
        }
        i := i + 1;
      }
      assert ps[..i] == ps;
    }

    /**
     * The closing summary of `inspect_disttag`: OK when a source package
     * was seen and `result` is still true, "not a source RPM" when none was
     * seen, nothing otherwise; the return value is false unless both hold.
     */
    method Close(src: bool, result: bool) returns (ok: bool)
      modifies this`results
      ensures results == old(results) + Closing(src, result)
      ensures ok == (src && result)
    {
      ok := result;
      if result && src {
        AddResult(OkResult);
      } else if !src {
        AddResult(NotSourceResult);
        ok := false;
      }
    }

    /**
     * `inspect_disttag` as written: the peer loop keeps only the last
     * driver call's return value, then the closing summary is appended.
     */
    method InspectDisttagAsWritten() returns (ok: bool)
      modifies this`results
      ensures results == old(results) + AsWrittenFindings(peers)
      ensures ok == AsWrittenVerdict(peers)
    {
      var src, result, all := WalkPeers(peers);
      ghost var fs := VisitedFiles(peers);
      AppendTwice(old(results), DriverFindings(fs), Closing(src, result));
      ok := Close(src, result);
    }

    /**
     * `inspect_disttag` as evidently intended: a failing driver call makes
     * the whole inspection fail.
     */
    method InspectDisttag() returns (ok: bool)
      modifies this`results
      ensures results == old(results) + Findings(peers)
      ensures ok == Verdict(peers)
    {
      var src, last, all := WalkPeers(peers);
      ghost var fs := VisitedFiles(peers);
      AppendTwice(old(results), DriverFindings(fs), Closing(src, all));
      ok := Close(src, all);
    }
  }
}
