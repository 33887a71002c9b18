/**
 The two-file artifact commit of the monitor engine (monitor_engine/pipeline.py).

 The feed and its archive are staged, validated and then moved into place one after the other;
 on a failure the last good pair is written back.  A disk is a map from paths to contents, any
 operation may fail, and every state the disk goes through is recorded, so that a statement about
 the trace is a statement about a crash at any moment.
 */
module ArtifactCommit {
  import opened Common

  /** File contents: text that decodes as UTF-8, or bytes that do not. */
  datatype Bytes = Utf8(text: string) | NotUtf8(raw: seq<bv8>)

  type Files = map<string, Bytes>

  /** The operations that may fail, in program order; the restore ones carry the position in the pair. */
  datatype Op =
    | MakeArchiveDir | CreateStagedOutput | WriteStagedOutput | CreateStagedArchive | WriteStagedArchive | ReadPrevious
    | ValidateOutput | ValidateArchive | ReplaceArchive | ReplaceOutput
    | UnlinkRestore(index: nat) | CreateRestore(index: nat) | WriteRestore(index: nat) | ReplaceRestore(index: nat)

  /** Where the pair lives, what is written, and the fresh names the staging files get. */
  datatype Job = Job(output: string, archive: string, outputPayload: string, archivePayload: string,
                     stagedOutput: string, stagedArchive: string, restores: seq<string>)

  function Get(files: Files, path: string): Option<Bytes> {
    if path in files then Some(files[path]) else None
  }

  function Pair(files: Files, job: Job): (Option<Bytes>, Option<Bytes>) {
    (Get(files, job.output), Get(files, job.archive))
  }

  /** The two targets and the four staging names are six paths. */
  ghost predicate DistinctPaths(job: Job) {
    && |job.restores| == 2
    && job.output != job.archive
    && job.stagedOutput !in {job.output, job.archive}
    && job.stagedArchive !in {job.output, job.archive, job.stagedOutput}
    && job.restores[0] !in {job.output, job.archive, job.stagedOutput, job.stagedArchive}
    && job.restores[1] !in {job.output, job.archive, job.stagedOutput, job.stagedArchive, job.restores[0]}
  }

  /** The staging names are new. */
  ghost predicate FreshNames(files: Files, job: Job) {
    && DistinctPaths(job)
    && job.stagedOutput !in files && job.stagedArchive !in files
    && job.restores[0] !in files && job.restores[1] !in files
  }

  /** Staging of both files and reading of the previous pair go through. */
  predicate StagingWorks(fails: set<Op>) {
    fails !! {MakeArchiveDir, CreateStagedOutput, WriteStagedOutput, CreateStagedArchive, WriteStagedArchive,
              ReadPrevious}
  }

  /** What a failure before the try block leaves behind: staging files written so far are not cleaned up. */
  function Leftovers(job: Job, fails: set<Op>): Files {
    if MakeArchiveDir in fails || CreateStagedOutput in fails || WriteStagedOutput in fails then map[]
    else if CreateStagedArchive in fails || WriteStagedArchive in fails then
      map[job.stagedOutput := Utf8(job.outputPayload)]
    else map[job.stagedOutput := Utf8(job.outputPayload), job.stagedArchive := Utf8(job.archivePayload)]
  }

  /** No operation of the try block fails. */
  predicate CommitWorks(fails: set<Op>) {
    fails !! {ValidateOutput, ValidateArchive, ReplaceArchive, ReplaceOutput}
  }

  /** The failure came after the archive had been moved into place. */
  predicate ArchiveReplaced(fails: set<Op>) {
    fails !! {ValidateOutput, ValidateArchive, ReplaceArchive}
  }

  /**
   Bringing one file of the pair back goes through: it was absent and can be unlinked, or it decodes and each
   step works.
   */
  predicate RestoreWorks(fails: set<Op>, previous: Option<Bytes>, index: nat) {
    if previous.None? then UnlinkRestore(index) !in fails
    else previous.value.Utf8? && fails !! {CreateRestore(index), WriteRestore(index), ReplaceRestore(index)}
  }

  predicate BothRestorable(before: Files, job: Job, fails: set<Op>) {
    RestoreWorks(fails, Get(before, job.archive), 0) && RestoreWorks(fails, Get(before, job.output), 1)
  }

  /**
   The pair is the old one, the new one, or the old feed with the new archive; nothing else, and nothing
   half-written.
   */
  ghost predicate PairAllowed(files: Files, before: Files, job: Job) {
    var (output, archive) := Pair(before, job);
    var newOutput, newArchive := Some(Utf8(job.outputPayload)), Some(Utf8(job.archivePayload));
    Pair(files, job) in {(output, archive), (output, newArchive), (newOutput, newArchive)}
  }

  class Disk {
    var files: Files
    /** Every state since the disk was opened, the current one last. */
    ghost var trace: seq<Files>

    constructor (files: Files)
      ensures this.files == files && trace == [files]
    {
      this.files := files;
      trace := [files];
    }

    method Put(path: string, content: Bytes)
      modifies this
      ensures files == old(files)[path := content] && trace == old(trace) + [files]
    {
      files := files[path := content];
      trace := trace + [files];
    }

    /** Unlinks the path; a missing file is no error. */
    method Unlink(path: string)
      modifies this
      ensures files == old(files) - {path} && trace == old(trace) + [files]
    {
      files := files - {path};
      trace := trace + [files];
    }

    /** The atomic rename. */
    method Replace(source: string, target: string)
      requires source in files && source != target
      modifies this
      ensures files == (old(files) - {source})[target := old(files)[source]] && trace == old(trace) + [files]
    {
      files := (files - {source})[target := files[source]];
      trace := trace + [files];
    }

    /** Leaves the complete staging file, or on failure no staging file at all. */
    method WriteStagedJson(name: string, payload: string, createFails: bool, writeFails: bool) returns (ok: bool)
      requires name !in files
      modifies this
      ensures ok <==> !createFails && !writeFails
      ensures files == if ok then old(files)[name := Utf8(payload)] else old(files)
      ensures old(trace) <= trace
      ensures forall i, p :: |old(trace)| <= i < |trace| && p != name ==> Get(trace[i], p) == Get(old(files), p)
    {
      if createFails {
        return false;
      }
      Put(name, Utf8(""));
      if writeFails {
        Unlink(name);
        return false;
      }
      Put(name, Utf8(payload));
      return true;
    }

    /** Writes one file of the previous pair back. */
    method Restore(path: string, previous: Option<Bytes>, name: string, index: nat, fails: set<Op>) returns (ok: bool)
      requires Get(files, name) == None && name != path
      modifies this
      ensures ok <==> RestoreWorks(fails, previous, index)
      ensures ok ==> Get(files, path) == previous
      ensures !ok ==> Get(files, path) == Get(old(files), path)
      ensures forall p :: p != path && p != name ==> Get(files, p) == Get(old(files), p)
      ensures ok ==> Get(files, name) == None
      ensures old(trace) <= trace
      ensures forall i, p :: |old(trace)| <= i < |trace| && p != path && p != name ==>
          Get(trace[i], p) == Get(old(files), p)
      ensures forall i :: |old(trace)| <= i < |trace| ==> Get(trace[i], path) in {Get(old(files), path), previous}
    {
      if previous.None? {
        if UnlinkRestore(index) in fails {
          return false;
        }
        Unlink(path);
        return true;
      }
      if previous.value.NotUtf8? {
        return false;
      }
      ok := WriteStagedJson(name, previous.value.text, CreateRestore(index) in fails, WriteRestore(index) in fails);
      if !ok {
        return false;
      }
      if ReplaceRestore(index) in fails {
        return false;
      }
      Replace(name, path);
    }

    /**
     The whole commit.  It returns exactly when no operation fails; then both files are new and
     nothing else changed.  A failure inside the try block leaves no staging file and the old feed,
     and the old archive exactly when it had not been replaced yet or could be written back.  A
     failure before the try block changes neither file but leaves the staging files written so far.
     */
    method PersistCompletedRun(job: Job, fails: set<Op>) returns (ok: bool)
      requires FreshNames(files, job)
      modifies this
      ensures ok <==> StagingWorks(fails) && CommitWorks(fails)
      ensures ok ==> files == old(files)[job.archive := Utf8(job.archivePayload)][job.output := Utf8(job.outputPayload)]
      ensures !StagingWorks(fails) ==> files == old(files) + Leftovers(job, fails)
      ensures StagingWorks(fails) && !ok ==>
                && job.stagedOutput !in files && job.stagedArchive !in files
                && Get(files, job.output) == Get(old(files), job.output)
                && (Get(files, job.archive) == Get(old(files), job.archive) <==>
                      || !ArchiveReplaced(fails)
                      || RestoreWorks(fails, Get(old(files), job.archive), 0)
                      || Get(old(files), job.archive) == Some(Utf8(job.archivePayload)))
      ensures StagingWorks(fails) && !ok && BothRestorable(old(files), job, fails) ==> files == old(files)
      ensures old(trace) <= trace
      ensures forall i :: |old(trace)| <= i < |trace| ==> PairAllowed(trace[i], old(files), job)
      ensures ok <==> fails !! {MakeArchiveDir, CreateStagedOutput, WriteStagedOutput, CreateStagedArchive,
                                WriteStagedArchive, ReadPrevious, ValidateOutput, ValidateArchive, ReplaceArchive,
                                ReplaceOutput}
      ensures !(fails !! {MakeArchiveDir, CreateStagedOutput, WriteStagedOutput}) ==> files == old(files)
      ensures fails !! {MakeArchiveDir, CreateStagedOutput, WriteStagedOutput}
              && !(fails !! {CreateStagedArchive, WriteStagedArchive}) ==>
                files == old(files)[job.stagedOutput := Utf8(job.outputPayload)]
      ensures fails !! {MakeArchiveDir, CreateStagedOutput, WriteStagedOutput, CreateStagedArchive, WriteStagedArchive}
              && ReadPrevious in fails ==>
                files
                == old(files)[job.stagedOutput := Utf8(job.outputPayload)][job.stagedArchive :=
                                                                           Utf8(job.archivePayload)]
      ensures !(fails !! {ValidateOutput, ValidateArchive, ReplaceArchive}) ==>
                Get(files, job.archive) == Get(old(files), job.archive)
      ensures UnlinkRestore(0) !in fails && Get(old(files), job.archive) == None && !ok ==>
          Get(files, job.archive) == None
      ensures fails !! {CreateRestore(0), WriteRestore(0), ReplaceRestore(0)} && !ok
              && Get(old(files), job.archive).Some? && Get(old(files), job.archive).value.Utf8? ==>
                Get(files, job.archive) == Get(old(files), job.archive)
    {
      var staged := StageBoth(job, fails);
      if !staged {
        return false;
      }
      assert Pair(files, job) == Pair(old(files), job);
      label staged:
      ok := CommitOrRestore(job, fails);
      forall p
        ensures ok ==>
                  Get(files, p)
                  == Get(old(files)[job.archive := Utf8(job.archivePayload)][job.output := Utf8(job.outputPayload)], p)
        ensures !ok && BothRestorable(old(files), job, fails) ==> Get(files, p) == Get(old(files), p)
      {
        if p !in {job.output, job.archive, job.stagedOutput, job.stagedArchive} {
          assert Get(old@staged(files), p) == Get(old(files), p);
        }
      }
      if ok {
        SameFiles(files, old(files)[job.archive := Utf8(job.archivePayload)][job.output := Utf8(job.outputPayload)]);
      } else if BothRestorable(old(files), job, fails) {
        SameFiles(files, old(files));
      }
    }

    /** The try statement with its except and finally blocks, from the moment both files are staged. */
    method CommitOrRestore(job: Job, fails: set<Op>) returns (ok: bool)
      requires DistinctPaths(job)
      requires Get(files, job.stagedOutput) == Some(Utf8(job.outputPayload))
      requires Get(files, job.stagedArchive) == Some(Utf8(job.archivePayload))
      requires forall i :: 0 <= i < 2 ==> Get(files, job.restores[i]) == None
      modifies this
      ensures ok <==> CommitWorks(fails)
      ensures ok ==> Pair(files, job) == (Some(Utf8(job.outputPayload)), Some(Utf8(job.archivePayload)))
      ensures !ok ==> Get(files, job.output) == Get(old(files), job.output)
      ensures !ok ==> Get(files, job.archive)
                      == if !ArchiveReplaced(fails) || RestoreWorks(fails, Get(old(files), job.archive), 0)
                         then Get(old(files), job.archive) else Some(Utf8(job.archivePayload))
      ensures job.stagedOutput !in files && job.stagedArchive !in files
      ensures forall p :: p !in {job.output, job.archive, job.stagedOutput, job.stagedArchive}
                          && (ok || BothRestorable(old(files), job, fails) || p !in job.restores) ==>
                Get(files, p) == Get(old(files), p)
      ensures old(trace) <= trace
      ensures forall i :: |old(trace)| <= i < |trace| ==> PairAllowed(trace[i], old(files), job)
    {
      var previousOutput := Get(files, job.output);
      var previousArchive := Get(files, job.archive);
      ok := Commit(job, fails);
      if !ok {
        RestorePair(job, previousOutput, previousArchive, fails);
      }
      Unlink(job.stagedOutput);
      Unlink(job.stagedArchive);
    }

    /** Everything before the try block: write both staging files and read the previous pair. */
    method StageBoth(job: Job, fails: set<Op>) returns (ok: bool)
      requires FreshNames(files, job)
      modifies this
      ensures ok <==> StagingWorks(fails)
      ensures ok ==>
              files
              == old(files)[job.stagedOutput := Utf8(job.outputPayload)][job.stagedArchive := Utf8(job.archivePayload)]
      ensures !ok ==> files == old(files) + Leftovers(job, fails)
      ensures old(trace) <= trace
      ensures forall i :: |old(trace)| <= i < |trace| ==> Pair(trace[i], job) == Pair(old(files), job)
    {
      if MakeArchiveDir in fails {
        return false;
      }
      var staged := WriteStagedJson(job.stagedOutput, job.outputPayload, CreateStagedOutput in fails,
                                    WriteStagedOutput in fails);
      if !staged {
        return false;
      }
      assert forall i :: |old(trace)| <= i < |trace| ==> Pair(trace[i], job) == Pair(old(files), job);
      label first:
      staged := WriteStagedJson(job.stagedArchive, job.archivePayload, CreateStagedArchive in fails,
                                WriteStagedArchive in fails);
      assert forall i :: |old@first(trace)| <= i < |trace| ==>
          Get(trace[i], job.output) == Get(old@first(files), job.output)
              && Get(trace[i], job.archive) == Get(old@first(files), job.archive);
      assert forall i :: |old(trace)| <= i < |trace| ==> Pair(trace[i], job) == Pair(old(files), job);
      if !staged {
        return false;
      }
      if ReadPrevious in fails {
        return false;
      }
      return true;
    }

    /** The try block: validate both staging files, then move the archive and after it the feed. */
    method Commit(job: Job, fails: set<Op>) returns (ok: bool)
      requires DistinctPaths(job)
      requires Get(files, job.stagedOutput) == Some(Utf8(job.outputPayload))
      requires Get(files, job.stagedArchive) == Some(Utf8(job.archivePayload))
      modifies this
      ensures ok <==> CommitWorks(fails)
      ensures Get(files, job.output) == if ok then Some(Utf8(job.outputPayload)) else Get(old(files), job.output)
      ensures Get(files, job.archive)
              == if ArchiveReplaced(fails) then Some(Utf8(job.archivePayload)) else Get(old(files), job.archive)
      ensures forall p :: p !in {job.output, job.archive, job.stagedOutput, job.stagedArchive} ==>
          Get(files, p) == Get(old(files), p)
      ensures old(trace) <= trace
      ensures forall i :: |old(trace)| <= i < |trace| ==> PairAllowed(trace[i], old(files), job)
    {
      if ValidateOutput in fails || ValidateArchive in fails || ReplaceArchive in fails {
        return false;
      }
      Replace(job.stagedArchive, job.archive);
      if ReplaceOutput in fails {
        return false;
      }
      Replace(job.stagedOutput, job.output);
      return true;
    }

    /** The except block: write the archive back, then the feed; the first failure ends it. */
    method RestorePair(job: Job, previousOutput: Option<Bytes>, previousArchive: Option<Bytes>, fails: set<Op>)
      requires DistinctPaths(job)
      requires forall i :: 0 <= i < 2 ==> Get(files, job.restores[i]) == None
      requires previousOutput == Get(files, job.output)
      modifies this
      ensures Get(files, job.output) == previousOutput
      ensures Get(files, job.archive) == if RestoreWorks(fails, previousArchive, 0) then previousArchive
          else Get(old(files), job.archive)
      ensures forall p :: p != job.output && p != job.archive && p !in job.restores ==>
          Get(files, p) == Get(old(files), p)
      ensures RestoreWorks(fails, previousArchive, 0) && RestoreWorks(fails, previousOutput, 1) ==>
                forall i :: 0 <= i < 2 ==> Get(files, job.restores[i]) == None
      ensures old(trace) <= trace
      ensures forall i :: |old(trace)| <= i < |trace| ==>
                Pair(trace[i], job) in {(previousOutput, previousArchive),
                                        (previousOutput, Get(old(files), job.archive))}
    {
      var paths, previous := [job.archive, job.output], [previousArchive, previousOutput];
      var ok, i := true, 0;
      while ok && i < 2
        invariant 0 <= i <= 2 && old(trace) <= trace
        invariant ok <==> forall k :: 0 <= k < i ==> RestoreWorks(fails, previous[k], k)
        invariant Get(files, job.output) == previousOutput
        invariant Get(files, job.archive)
                  == if i > 0 && RestoreWorks(fails, previousArchive, 0) then previousArchive
                      else Get(old(files), job.archive)
        invariant forall p :: p != job.output && p != job.archive && p !in job.restores ==>
            Get(files, p) == Get(old(files), p)
        invariant forall k :: i <= k < 2 ==> Get(files, job.restores[k]) == None
        invariant ok ==> forall k :: 0 <= k < i ==> Get(files, job.restores[k]) == None
        invariant forall k :: |old(trace)| <= k < |trace| ==>
                    Pair(trace[k], job) in {(previousOutput, previousArchive),
                                            (previousOutput, Get(old(files), job.archive))}
        decreases 2 - i
      {
        ok := Restore(paths[i], previous[i], job.restores[i], i, fails);
        i := i + 1;
      }
    }
  }

  lemma SameFiles(a: Files, b: Files)
    requires forall p :: Get(a, p) == Get(b, p)
    ensures a == b
  {
    forall p
      ensures p in a <==> p in b
      ensures p in a ==> a[p] == b[p]
    {
      assert Get(a, p) == Get(b, p);
    }
  }
}
