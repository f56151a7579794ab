/** The uploader's work loop, run against a script of what its connections, its pops, its uploads and
    its removals will say. */
module GcsUploader {
  import opened BoundedFifo
  import opened VideoExporter

  /** One TryPop: it yields a path or the EOS (None), with what an upload and a removal of that path
      would report, or it times out, and then the saver's completion flag is read. */
  datatype Poll = Popped(path: Option<Path>, uploads: bool, removes: bool) | TimedOut(sourceCompleted: bool)

  datatype Ending = Waiting | Finished(ok: bool)

  function PolledPaths(polls: seq<Poll>): seq<Path> {
    if polls == [] then []
    else
      var last := polls[|polls| - 1];
      PolledPaths(polls[..|polls| - 1]) + if last.Popped? && last.path.Some? then [last.path.value] else []
  }

  lemma PolledPathsStep(polls: seq<Poll>, used: nat)
    requires used < |polls|
    ensures var p := polls[used];
            PolledPaths(polls[..used + 1]) ==
            PolledPaths(polls[..used]) + if p.Popped? && p.path.Some? then [p.path.value] else []
  {
    assert polls[..used + 1][..used] == polls[..used];
  }

  /** The poll is one that makes the uploader stop. */
  predicate Ends(p: Poll) {
    if p.Popped? then p.path == None else p.sourceCompleted
  }

  /** Every video that was on disk is still there or is in the bucket, with the same frames; only an
      uploaded one is ever gone, and none if local files are kept. */
  ghost predicate Kept<F>(before: map<Path, seq<F>>, disk: map<Path, seq<F>>, bucket: map<Path, seq<F>>, keepLocal: bool) {
    && disk.Keys <= before.Keys && bucket.Keys <= before.Keys
    && (forall p <- disk :: disk[p] == before[p])
    && (forall p <- bucket :: bucket[p] == before[p])
    && (forall p <- before :: p in disk || p in bucket)
    && (keepLocal ==> disk == before)
  }

  /** Among these polls there is one of the path whose upload the bucket accepts. */
  ghost predicate Accepted(polls: seq<Poll>, p: Path) {
    exists i | 0 <= i < |polls| :: polls[i].Popped? && polls[i].path == Some(p) && polls[i].uploads
  }

  /** And one after which, in addition, the removal of the local file succeeds. */
  ghost predicate Removable(polls: seq<Poll>, p: Path) {
    exists i | 0 <= i < |polls| :: polls[i].Popped? && polls[i].path == Some(p) && polls[i].uploads && polls[i].removes
  }

  /** Exactly the files that were there and that the bucket accepted are in it, and exactly those of
      them that are not to be kept and could be removed are gone. */
  ghost predicate Outcome<F>(before: map<Path, seq<F>>, disk: map<Path, seq<F>>, bucket: map<Path, seq<F>>,
                             keepLocal: bool, polls: seq<Poll>) {
    && (forall p :: p in bucket <==> p in before && Accepted(polls, p))
    && (forall p :: p in disk <==> p in before && (keepLocal || !Removable(polls, p)))
  }

  /** The last of these polls is an attempt that failed: the bucket did not accept the file, or it was
      not there any more. */
  ghost predicate AttemptFails<F>(before: map<Path, seq<F>>, keepLocal: bool, polls: seq<Poll>)
    requires polls != []
  {
    var earlier, last := polls[..|polls| - 1], polls[|polls| - 1];
    last.Popped? && last.path.Some? &&
    !(last.uploads && last.path.value in before && (keepLocal || !Removable(earlier, last.path.value)))
  }

  ghost function FailedAttempts<F>(before: map<Path, seq<F>>, keepLocal: bool, polls: seq<Poll>): nat {
    if polls == [] then 0
    else FailedAttempts(before, keepLocal, polls[..|polls| - 1]) + if AttemptFails(before, keepLocal, polls) then 1 else 0
  }

  /** UploadFile, and then the removal of the local file. A file that is not there cannot be uploaded. */
  method UploadAndRemove<F>(p: Path, poll: Poll, keepLocal: bool, disk: map<Path, seq<F>>, bucket: map<Path, seq<F>>,
                            ghost before: map<Path, seq<F>>, ghost polls: seq<Poll>)
    returns (ok: bool, disk': map<Path, seq<F>>, bucket': map<Path, seq<F>>)
    requires poll.Popped? && poll.path == Some(p)
    requires Kept(before, disk, bucket, keepLocal) && Outcome(before, disk, bucket, keepLocal, polls)
    ensures Kept(before, disk', bucket', keepLocal) && Outcome(before, disk', bucket', keepLocal, polls + [poll])
    ensures ok <==> poll.uploads && p in disk
    ensures bucket' == if ok then bucket[p := disk[p]] else bucket
    ensures disk' == if ok && !keepLocal && poll.removes then disk - {p} else disk
  {
    ok := poll.uploads && p in disk;
    disk', bucket' := disk, bucket;
    if ok {
      bucket' := bucket[p := disk[p]];
      if !keepLocal && poll.removes {
        disk' := disk - {p};
      }
    }
    OneMorePoll(polls, poll);
  }

  lemma OneMorePoll(polls: seq<Poll>, poll: Poll)
    ensures forall p: Path :: Accepted(polls + [poll], p) <==>
              Accepted(polls, p) || (poll.Popped? && poll.path == Some(p) && poll.uploads)
    ensures forall p: Path :: Removable(polls + [poll], p) <==>
              Removable(polls, p) || (poll.Popped? && poll.path == Some(p) && poll.uploads && poll.removes)
  {
    var all := polls + [poll];
    assert all[|polls|] == poll;
    assert forall i | 0 <= i < |polls| :: all[i] == polls[i];
  }

  lemma NoUpload<F>(before: map<Path, seq<F>>, disk: map<Path, seq<F>>, bucket: map<Path, seq<F>>,
                    keepLocal: bool, polls: seq<Poll>, poll: Poll)
    requires Outcome(before, disk, bucket, keepLocal, polls) && (poll.Popped? ==> poll.path == None)
    ensures Outcome(before, disk, bucket, keepLocal, polls + [poll])
  {
    OneMorePoll(polls, poll);
  }

  /** What the loop has done with the polls before number `used`: only the last of them may end it. */
  ghost predicate Progress<F>(before: map<Path, seq<F>>, disk: map<Path, seq<F>>, bucket: map<Path, seq<F>>, keepLocal: bool,
                              attempted: seq<Path>, polls: seq<Poll>, used: nat, failed: nat, ended: bool) {
    && used <= |polls|
    && Kept(before, disk, bucket, keepLocal) && Outcome(before, disk, bucket, keepLocal, polls[..used])
    && attempted == PolledPaths(polls[..used]) && failed == FailedAttempts(before, keepLocal, polls[..used])
    && (forall i | 0 <= i < used - 1 :: !Ends(polls[i])) && (ended <==> used > 0 && Ends(polls[used - 1]))
  }

  /** One TryPop and what follows from it; `connected` is that the connection need not be renewed. */
  method TakePoll<F>(polls: seq<Poll>, used: nat, keepLocal: bool, attempted: seq<Path>, disk: map<Path, seq<F>>,
                     bucket: map<Path, seq<F>>, ghost before: map<Path, seq<F>>, ghost failed: nat)
    returns (stop: bool, connected: bool, attempted': seq<Path>, disk': map<Path, seq<F>>, bucket': map<Path, seq<F>>)
    requires Progress(before, disk, bucket, keepLocal, attempted, polls, used, failed, false) && used < |polls|
    ensures Progress(before, disk', bucket', keepLocal, attempted', polls, used + 1,
                     if connected then failed else failed + 1, stop)
    ensures !connected ==> !stop
    ensures !connected <==> polls[used].Popped? && polls[used].path.Some? &&
                            !(polls[used].uploads && polls[used].path.value in disk)
  {
    var poll := polls[used];
    PolledPathsStep(polls, used);
    assert polls[..used + 1] == polls[..used] + [poll] && polls[..used + 1][..used] == polls[..used];
    stop, connected, attempted', disk', bucket' := false, true, attempted, disk, bucket;
    if poll.TimedOut? {
      stop := poll.sourceCompleted;
      NoUpload(before, disk, bucket, keepLocal, polls[..used], poll);
    } else if poll.path == None {
      stop := true;
      NoUpload(before, disk, bucket, keepLocal, polls[..used], poll);
    } else {
      var p := poll.path.value;
      attempted' := attempted + [p];
      connected, disk', bucket' := UploadAndRemove(p, poll, keepLocal, disk, bucket, before, polls[..used]);
    }
  }

  /** The loop over paths while the connection lasts. */
  method UseConnection<F>(polls: seq<Poll>, start: nat, keepLocal: bool, attempted: seq<Path>, disk: map<Path, seq<F>>,
                          bucket: map<Path, seq<F>>, ghost before: map<Path, seq<F>>, ghost failed: nat)
    returns (stop: bool, connected: bool, attempted': seq<Path>, disk': map<Path, seq<F>>, bucket': map<Path, seq<F>>,
             used: nat)
    requires Progress(before, disk, bucket, keepLocal, attempted, polls, start, failed, false)
    ensures start <= used && Progress(before, disk', bucket', keepLocal, attempted', polls, used,
                                      if connected then failed else failed + 1, stop)
    ensures if connected then stop || used == |polls| else !stop && used > start
  {
    stop, connected, attempted', disk', bucket', used := false, true, attempted, disk, bucket, start;
    while connected && !stop && used < |polls|
      invariant start <= used && (!connected ==> !stop && used > start)
      invariant Progress(before, disk', bucket', keepLocal, attempted', polls, used,
                         if connected then failed else failed + 1, stop)
      decreases |polls| - used
    {
      stop, connected, attempted', disk', bucket' :=
        TakePoll(polls, used, keepLocal, attempted', disk', bucket', before, failed);
      used := used + 1;
    }
  }

  /** WorkImpl. Each popped path is attempted once, in order, whether or not its upload succeeds: a
      failure costs that file its upload and starts a new connection, and nothing else does. The files
      that end up in the bucket are exactly the popped ones that were there and that the bucket
      accepted. It ends with the first poll that says so, or the first connection that cannot be made. */
  method WorkImpl<F>(doWork: bool, bucketName: string, keepLocal: bool, polls: seq<Poll>, connects: nat -> bool,
                     disk: map<Path, seq<F>>)
    returns (end: Ending, attempted: seq<Path>, disk': map<Path, seq<F>>, bucket: map<Path, seq<F>>,
             used: nat, connections: nat)
    ensures used <= |polls|
    ensures attempted == PolledPaths(polls[..used])
    ensures Kept(disk, disk', bucket, keepLocal) && Outcome(disk, disk', bucket, keepLocal, polls[..used])
    ensures !doWork ==> end == Finished(true) && used == 0 && connections == 0
    ensures doWork && bucketName == "" ==> end == Finished(false) && used == 0 && connections == 0
    ensures forall i | 0 <= i < used - 1 :: !Ends(polls[i])
    ensures doWork && bucketName != "" ==>
              // one connection, and one more for each failed attempt; only the last one may fail
              && connections == 1 + FailedAttempts(disk, keepLocal, polls[..used])
              && (forall k: nat | k < connections - 1 :: connects(k))
              && (end == Finished(false) <==> !connects(connections - 1))
              && (end == Finished(true) <==> used > 0 && Ends(polls[used - 1]))
              && (end == Waiting ==> used == |polls|)
  {
    attempted, disk', bucket, used, connections := [], disk, map[], 0, 0;
    if !doWork {
      return Finished(true), attempted, disk', bucket, used, connections;
    }
    if bucketName == "" {
      return Finished(false), attempted, disk', bucket, used, connections;
    }
    ghost var failed := 0;
    var startNewConnection := true;
    while startNewConnection
      invariant Progress(disk, disk', bucket, keepLocal, attempted, polls, used, failed, !startNewConnection)
      invariant connections == failed + if startNewConnection then 0 else 1
      invariant forall k: nat | k < connections :: connects(k)
      decreases |polls| - used, startNewConnection
    {
      connections := connections + 1;
      if !connects(connections - 1) {
        return Finished(false), attempted, disk', bucket, used, connections;
      }
      var stop, connected;
      stop, connected, attempted, disk', bucket, used :=
        UseConnection(polls, used, keepLocal, attempted, disk', bucket, disk, failed);
      if connected && !stop {
        return Waiting, attempted, disk', bucket, used, connections;
      }
      startNewConnection, failed := !stop, if connected then failed else failed + 1;
    }
    end := Finished(true);
  }
}
