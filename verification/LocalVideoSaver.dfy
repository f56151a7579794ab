/** The local video saver's work loop, run against a script of what its pops, its writes and the
    downstream completion flag will say. */
module LocalVideoSaver {
  import opened BoundedFifo
  import opened VideoChunks
  import opened VideoExporter

  /** One TryPop: it yields an item (whose write will end as given) or it times out, and then the
      source's completion flag is read. */
  datatype Poll<F> = Popped(item: Item<F>, result: WriteResult) | TimedOut(sourceCompleted: bool)

  datatype Ending = Waiting | Finished(ok: bool) | Aborted

  function PolledFrames<F>(polls: seq<Poll<F>>): seq<F> {
    if polls == [] then []
    else
      var last := polls[|polls| - 1];
      PolledFrames(polls[..|polls| - 1]) + if last.Popped? && last.item.Image? then [last.item.f] else []
  }

  /** The poll is one that makes the saver stop looking for images. */
  predicate Ends<F>(p: Poll<F>) {
    if p.Popped? then p.item == EndOfStream else p.sourceCompleted
  }

  /** How many frames the file being filled has after these polls, if no write has failed. */
  function InFile<F>(polls: seq<Poll<F>>, max: nat): nat {
    if polls == [] then 0
    else
      var n, last := InFile(polls[..|polls| - 1], max), polls[|polls| - 1];
      if !last.Popped? || !last.item.Image? then n else if n + 1 == max then 0 else n + 1
  }

  /** The poll yields an image that is not written. A file is created only for its first image. */
  predicate Fails<F>(polls: seq<Poll<F>>, i: nat, max: nat)
    requires i < |polls|
  {
    var p := polls[i];
    p.Popped? && p.item.Image? &&
    (p.result == ConvertFailed || p.result == PutFailed || (p.result == CreateFailed && InFile(polls[..i], max) == 0))
  }

  /** The saver goes on after each of these polls. */
  ghost predicate GoesOn<F>(polls: seq<Poll<F>>, from: nat, until: int, max: nat)
    requires until <= |polls|
  {
    forall i | from <= i < until ::
      !Ends(polls[i]) && !(polls[i].Popped? && polls[i].item == Failure) && !Fails(polls, i, max)
  }

  lemma PollsStep<F>(polls: seq<Poll<F>>, used: nat, max: nat)
    requires used < |polls|
    ensures var p := polls[used];
            var n := InFile(polls[..used], max);
            var image := p.Popped? && p.item.Image?;
            && PolledFrames(polls[..used + 1]) == PolledFrames(polls[..used]) + (if image then [p.item.f] else [])
            && InFile(polls[..used + 1], max) == if !image then n else if n + 1 == max then 0 else n + 1
  {
    assert polls[..used + 1][..used] == polls[..used];
  }

  /** Between the two there are only polls that timed out while the source was running. */
  ghost predicate Skipped<F>(polls: seq<Poll<F>>, start: nat, until: nat, max: nat) {
    && start <= until <= |polls|
    && (forall i | start <= i < until :: polls[i] == TimedOut(false))
    && PolledFrames(polls[..until]) == PolledFrames(polls[..start])
    && InFile(polls[..until], max) == InFile(polls[..start], max)
  }

  /** Waits for the next item: timed-out polls are repeated until the source has completed. */
  method NextItem<F>(polls: seq<Poll<F>>, start: nat, ghost max: nat) returns (used: nat, item: Option<Item<F>>)
    requires start <= |polls|
    ensures start <= used <= |polls|
    ensures item == None ==> used == |polls| && Skipped(polls, start, used, max)
    ensures item.Some? ==> used > start && Skipped(polls, start, used - 1, max) && var last := polls[used - 1];
              if last.Popped? then item.value == last.item else last.sourceCompleted && item.value == EndOfStream
    ensures PolledFrames(polls[..used]) ==
            PolledFrames(polls[..start]) + if item.Some? && item.value.Image? then [item.value.f] else []
  {
    used := start;
    while used < |polls|
      invariant Skipped(polls, start, used, max)
    {
      var poll := polls[used];
      PollsStep(polls, used, max);
      used := used + 1;
      if poll.Popped? {
        return used, Some(poll.item);
      } else if poll.sourceCompleted {
        return used, Some(EndOfStream);
      }
    }
    item := None;
  }

  /** The path of the n-th file, which is given the n-th name. */
  function PathOf(n: nat): Path { n + 1 }

  /** The paths of the first files in order and, behind all of them, at most one empty path. */
  ghost predicate PathsInOrder(sent: seq<Path>, files: nat) {
    && |sent| <= files + 1
    && forall i | 0 <= i < |sent| :: sent[i] == if i < files then PathOf(i) else NO_PATH
  }

  /** What has become of one file after the polls from `start` on: it holds the frames they yielded,
      except for one that could not be written; it has a path from the first image on that was
      converted. */
  ghost predicate Filled<F>(max: nat, polls: seq<Poll<F>>, start: nat, used: nat, name: Path,
                            frames: seq<F>, path: Path, ok: bool, stop: bool) {
    && start <= used <= |polls| && |frames| <= max && (used == start ==> ok && !stop && frames == [])
    && if !ok then
         && |frames| < max && GoesOn(polls, start, used - 1, max) && Fails(polls, used - 1, max)
         && PolledFrames(polls[..used - 1]) == PolledFrames(polls[..start]) + frames
         && InFile(polls[..used - 1], max) == |frames|
         && path == if frames == [] && polls[used - 1].result == ConvertFailed then NO_PATH else name
       else
         && PolledFrames(polls[..used]) == PolledFrames(polls[..start]) + frames
         && InFile(polls[..used], max) == (if |frames| == max then 0 else |frames|)
         && path == (if frames == [] then NO_PATH else name)
         && if stop then |frames| < max && GoesOn(polls, start, used - 1, max) && Ends(polls[used - 1])
            else GoesOn(polls, start, used, max)
  }

  /** One converted or failed image: the rest of the loop body. */
  method WriteImage<F>(f: F, result: WriteResult, frames: seq<F>, path: Path, name: Path)
    returns (ok: bool, frames': seq<F>, path': Path)
    requires name != NO_PATH && path == if frames == [] then NO_PATH else name
    ensures ok <==> result == Written || (result == CreateFailed && frames != [])
    ensures frames' == if ok then frames + [f] else frames
    ensures path' == if frames == [] && result == ConvertFailed then NO_PATH else name
  {
    frames', path' := frames, path;
    if result == ConvertFailed {
      return false, frames', path';
    }
    // a file is created only for its first image
    var created := path == name || result != CreateFailed;
    path' := name;
    ok := created && result != PutFailed;
    if ok {
      frames' := frames + [f];
    }
  }

  lemma ImageWritten<F>(max: nat, polls: seq<Poll<F>>, start: nat, before: nat, used: nat, name: Path,
                     frames: seq<F>, path: Path)
    requires Filled(max, polls, start, before, name, frames, path, true, false) && |frames| < max
    requires before <= used < |polls| && Skipped(polls, before, used, max)
    requires polls[used].Popped? && polls[used].item.Image?
    requires polls[used].result == Written || (polls[used].result == CreateFailed && frames != [])
    ensures Filled(max, polls, start, used + 1, name, frames + [polls[used].item.f], name, true, false)
  {
    PollsStep(polls, used, max);
  }

  lemma ImageFails<F>(max: nat, polls: seq<Poll<F>>, start: nat, before: nat, used: nat, name: Path,
                     frames: seq<F>, path: Path)
    requires Filled(max, polls, start, before, name, frames, path, true, false) && |frames| < max
    requires before <= used < |polls| && Skipped(polls, before, used, max)
    requires polls[used].Popped? && polls[used].item.Image?
    requires polls[used].result != Written && !(polls[used].result == CreateFailed && frames != [])
    ensures Filled(max, polls, start, used + 1, name, frames,
                   if frames == [] && polls[used].result == ConvertFailed then NO_PATH else name, false, false)
  {
  }

  lemma InputEnds<F>(max: nat, polls: seq<Poll<F>>, start: nat, before: nat, used: nat, name: Path,
                     frames: seq<F>, path: Path)
    requires Filled(max, polls, start, before, name, frames, path, true, false) && |frames| < max
    requires before <= used < |polls| && Skipped(polls, before, used, max) && Ends(polls[used])
    ensures Filled(max, polls, start, used + 1, name, frames, path, true, true)
  {
    PollsStep(polls, used, max);
  }

  /** The loop over files breaks off within a file: the script ends, or an error item aborts. */
  ghost predicate BreaksOff<F>(max: nat, polls: seq<Poll<F>>, start: nat, used: nat, frames: seq<F>, end: Ending) {
    && start <= used <= |polls| && |frames| < max
    && PolledFrames(polls[..used]) == PolledFrames(polls[..start]) + frames
    && if end == Waiting then used == |polls| && GoesOn(polls, start, used, max)
       else end == Aborted && used > start && GoesOn(polls, start, used - 1, max) &&
            polls[used - 1].Popped? && polls[used - 1].item == Failure
  }

  /** One image, if there is one: the body of the loop over images. */
  method TakeImage<F>(max: nat, polls: seq<Poll<F>>, ghost start: nat, before: nat, name: Path, frames: seq<F>, path: Path)
    returns (end: Option<Ending>, frames': seq<F>, path': Path, ok: bool, stop: bool, used: nat)
    requires Filled(max, polls, start, before, name, frames, path, true, false) && |frames| < max && name != NO_PATH
    ensures end == None ==> used > before && Filled(max, polls, start, used, name, frames', path', ok, stop)
    ensures end.Some? ==> BreaksOff(max, polls, start, used, frames', end.value)
  {
    end, frames', path', ok, stop := None, frames, path, true, false;
    var next: Option<Item<F>>;
    used, next := NextItem(polls, before, max);
    if next == None {
      end := Some(Waiting);
      return;
    }
    match next.value {
      case EndOfStream =>
        InputEnds(max, polls, start, before, used - 1, name, frames, path);
        stop := true;
      case Failure =>
        end := Some(Aborted);
      case Image(f) =>
        ok, frames', path' := WriteImage(f, polls[used - 1].result, frames, path, name);
        if ok {
          ImageWritten(max, polls, start, before, used - 1, name, frames, path);
        } else {
          ImageFails(max, polls, start, before, used - 1, name, frames, path);
        }
    }
  }

  /** One file: the loop that pops up to `max` images and writes them; `stop` is that there is nothing
      more to pop, `ok` that no write failed. */
  method FillFile<F>(max: int, polls: seq<Poll<F>>, start: nat, name: Path)
    returns (end: Option<Ending>, frames: seq<F>, path: Path, ok: bool, stop: bool, used: nat)
    requires max > 0 && start <= |polls| && name != NO_PATH && InFile(polls[..start], max) == 0
    ensures end == None ==> used > start && Filled(max, polls, start, used, name, frames, path, ok, stop)
    ensures end == None && ok && !stop ==> |frames| == max
    ensures end.Some? ==> BreaksOff(max, polls, start, used, frames, end.value)
  {
    end, frames, path, ok, stop, used := None, [], NO_PATH, true, false, start;
    while |frames| < max && ok && !stop
      invariant end == None && Filled(max, polls, start, used, name, frames, path, ok, stop)
      decreases |polls| - used
    {
      end, frames, path, ok, stop, used := TakeImage(max, polls, start, used, name, frames, path);
      if end.Some? {
        return;
      }
    }
  }

  lemma FileAdded<F>(files: seq<seq<F>>, frames: seq<F>, max: nat)
    requires max > 0 && AllFull(files, max) && |frames| <= max
    ensures var files' := if frames == [] then files else files + [frames];
            && Chunks(Concat(files) + frames, max) == files' && Concat(files') == Concat(files) + frames
            && (|frames| == max ==> AllFull(files', max))
  {
    ChunksOfFull(files, frames, max);
    ConcatAppend(files, frames);
    assert files + [] == files;
  }

  /** The files are full, and they hold these frames but for fewer than a file's worth. */
  ghost predicate FilesHold<F>(max: nat, files: seq<seq<F>>, frames: seq<F>) {
    AllFull(files, max) && Concat(files) <= frames && |frames| < |Concat(files)| + max
  }

  /** What was sent: paths in order, and no destination had been found completed before. */
  ghost predicate SentInOrder(forwardPaths: bool, dstCompleted: nat -> bool, sent: seq<Path>, files: nat) {
    && PathsInOrder(sent, files) && (!forwardPaths ==> sent == [])
    && forall k: nat | k < |sent| :: !dstCompleted(k)
  }

  /** The saver between two files: all files are full and all their paths were sent. */
  ghost predicate BetweenFiles<F>(max: nat, forwardPaths: bool, polls: seq<Poll<F>>, dstCompleted: nat -> bool, used: nat,
                                  files: seq<seq<F>>, sent: seq<Path>) {
    && used <= |polls| && GoesOn(polls, 0, used, max) && InFile(polls[..used], max) == 0
    && AllFull(files, max) && PolledFrames(polls[..used]) == Concat(files)
    && SentInOrder(forwardPaths, dstCompleted, sent, |files|) && (forwardPaths ==> |sent| == |files|)
  }

  /** The saver has failed at its last poll, and has removed what there was of that file: nothing if
      the image was the first of its file and could not be converted. */
  ghost predicate HasFailed<F>(max: nat, forwardPaths: bool, polls: seq<Poll<F>>, dstCompleted: nat -> bool, used: nat,
                               files: seq<seq<F>>, sent: seq<Path>, removed: Option<Path>) {
    && 0 < used <= |polls| && GoesOn(polls, 0, used - 1, max) && Fails(polls, used - 1, max)
    && FilesHold(max, files, PolledFrames(polls[..used - 1]))
    && SentInOrder(forwardPaths, dstCompleted, sent, |files|) && (forwardPaths ==> |sent| == |files|)
    && removed == Some(if polls[used - 1].result == ConvertFailed && PolledFrames(polls[..used - 1]) == Concat(files)
                       then NO_PATH else PathOf(|files|))
  }

  /** The saver has stopped without an error, because the input has ended or because the destination
      was found completed when the last path was to be sent. The last file may have no frame. */
  ghost predicate HasFinished<F>(max: nat, forwardPaths: bool, polls: seq<Poll<F>>, dstCompleted: nat -> bool, used: nat,
                                 files: seq<seq<F>>, sent: seq<Path>)
    requires max > 0
  {
    && 0 < used <= |polls| && GoesOn(polls, 0, used - 1, max)
    && files == Chunks(PolledFrames(polls[..used]), max)
    && SentInOrder(forwardPaths, dstCompleted, sent, |files|)
    && if forwardPaths then
         var loops := |files| + if Ends(polls[used - 1]) && InFile(polls[..used], max) == 0 then 1 else 0;
         || (|sent| == loops && Ends(polls[used - 1]))
         || (|sent| == loops - 1 && dstCompleted(|sent|) && !Fails(polls, used - 1, max))
       else Ends(polls[used - 1])
  }

  /** The saver is waiting within a file, or an error item has aborted it there. */
  ghost predicate HasBrokenOff<F>(max: nat, forwardPaths: bool, polls: seq<Poll<F>>, dstCompleted: nat -> bool, used: nat,
                                  files: seq<seq<F>>, sent: seq<Path>, end: Ending) {
    && used <= |polls| && FilesHold(max, files, PolledFrames(polls[..used]))
    && SentInOrder(forwardPaths, dstCompleted, sent, |files|) && (forwardPaths ==> |sent| == |files|)
    && if end == Waiting then used == |polls| && GoesOn(polls, 0, used, max)
       else end == Aborted && used > 0 && GoesOn(polls, 0, used - 1, max) &&
            polls[used - 1].Popped? && polls[used - 1].item == Failure
  }

  lemma FileBreaksOff<F>(max: nat, forwardPaths: bool, polls: seq<Poll<F>>, dstCompleted: nat -> bool, start: nat, used: nat,
                         files: seq<seq<F>>, sent: seq<Path>, frames: seq<F>, end: Ending)
    requires BetweenFiles(max, forwardPaths, polls, dstCompleted, start, files, sent)
    requires BreaksOff(max, polls, start, used, frames, end)
    ensures HasBrokenOff(max, forwardPaths, polls, dstCompleted, used, files, sent, end)
  {
    assert PolledFrames(polls[..used]) == Concat(files) + frames;
  }

  lemma FileFails<F>(max: nat, forwardPaths: bool, polls: seq<Poll<F>>, dstCompleted: nat -> bool, start: nat, used: nat,
                     files: seq<seq<F>>, sent: seq<Path>, frames: seq<F>, path: Path, stop: bool)
    requires BetweenFiles(max, forwardPaths, polls, dstCompleted, start, files, sent)
    requires Filled(max, polls, start, used, PathOf(|files|), frames, path, false, stop)
    ensures HasFailed(max, forwardPaths, polls, dstCompleted, used, files, sent, Some(path))
  {
    assert PolledFrames(polls[..used - 1]) == Concat(files) + frames;
  }

  function WithFile<F>(files: seq<seq<F>>, frames: seq<F>): seq<seq<F>> {
    if frames == [] then files else files + [frames]
  }

  /** The frames of a file that was filled without a failure. */
  lemma FileCounted<F>(max: nat, forwardPaths: bool, polls: seq<Poll<F>>, dstCompleted: nat -> bool, start: nat, used: nat,
                       files: seq<seq<F>>, sent: seq<Path>, frames: seq<F>, path: Path, stop: bool)
    requires max > 0 && BetweenFiles(max, forwardPaths, polls, dstCompleted, start, files, sent)
    requires used > start && Filled(max, polls, start, used, PathOf(|files|), frames, path, true, stop)
    ensures WithFile(files, frames) == Chunks(PolledFrames(polls[..used]), max)
    ensures |frames| == max ==>
              AllFull(WithFile(files, frames), max) && PolledFrames(polls[..used]) == Concat(WithFile(files, frames))
    ensures GoesOn(polls, 0, if stop then used - 1 else used, max)
  {
    FileAdded(files, frames, max);
    assert PolledFrames(polls[..used]) == Concat(files) + frames;
  }

  lemma PathSent(forwardPaths: bool, dstCompleted: nat -> bool, sent: seq<Path>, files: nat, path: Path, full: bool)
    requires SentInOrder(forwardPaths, dstCompleted, sent, files) && forwardPaths && |sent| == files
    requires path == (if full then PathOf(files) else NO_PATH) && !dstCompleted(|sent|)
    ensures SentInOrder(forwardPaths, dstCompleted, sent + [path], if full then files + 1 else files)
  {
  }

  lemma PathNotSent(forwardPaths: bool, dstCompleted: nat -> bool, sent: seq<Path>, files: nat)
    requires SentInOrder(forwardPaths, dstCompleted, sent, files) && |sent| <= files
    ensures SentInOrder(forwardPaths, dstCompleted, sent, files + 1)
  {
  }

  /** A file that was filled, whose path is then sent or not. */
  lemma FileDone<F>(max: nat, forwardPaths: bool, polls: seq<Poll<F>>, dstCompleted: nat -> bool, start: nat, used: nat,
                    files: seq<seq<F>>, sent: seq<Path>, frames: seq<F>, path: Path, stop: bool)
    requires max > 0 && BetweenFiles(max, forwardPaths, polls, dstCompleted, start, files, sent)
    requires used > start && Filled(max, polls, start, used, PathOf(|files|), frames, path, true, stop)
    requires stop || |frames| == max
    ensures var dst := forwardPaths && dstCompleted(|sent|);
            var sent' := if forwardPaths && !dst then sent + [path] else sent;
            if stop || dst then HasFinished(max, forwardPaths, polls, dstCompleted, used, WithFile(files, frames), sent')
            else BetweenFiles(max, forwardPaths, polls, dstCompleted, used, WithFile(files, frames), sent')
  {
    FileCounted(max, forwardPaths, polls, dstCompleted, start, used, files, sent, frames, path, stop);
    PathNotSent(forwardPaths, dstCompleted, sent, |files|);
    if forwardPaths && !dstCompleted(|sent|) {
      PathSent(forwardPaths, dstCompleted, sent, |files|, path, frames != []);
    }
  }

  /** WorkImpl. `dstCompleted(k)` is the downstream flag when the k-th path is about to be forwarded;
      `sent` is what the saver tries to put into the path channel, and `eos` that it then tries to put
      the EOS there. A saver that finishes without an error has written exactly the greedy cut of the
      frames it popped and has sent the paths of its files in order; the first time that it finds the
      destination completed is its last. Otherwise it has written full files that hold all frames but
      those of the file it was at, and has removed that one if it failed on it. */
  method WorkImpl<F>(max: int, forwardPaths: bool, polls: seq<Poll<F>>, dstCompleted: nat -> bool)
    returns (end: Ending, files: seq<seq<F>>, sent: seq<Path>, eos: bool, removed: Option<Path>, used: nat)
    ensures max <= 0 ==> end == Finished(false) && files == [] && sent == [] && used == 0 && !eos && removed == None
    ensures max > 0 && end == Finished(true) ==>
              removed == None && HasFinished(max, forwardPaths, polls, dstCompleted, used, files, sent)
    ensures max > 0 && end == Finished(false) ==>
              HasFailed(max, forwardPaths, polls, dstCompleted, used, files, sent, removed)
    ensures !end.Finished? ==>
              removed == None && HasBrokenOff(max, forwardPaths, polls, dstCompleted, used, files, sent, end)
    ensures max > 0 ==> (eos <==> forwardPaths && end.Finished?)
  {
    files, sent, eos, removed, used := [], [], false, None, 0;
    if max <= 0 {
      end := Finished(false);
      return;
    }
    var startNewFile := true;
    while startNewFile
      invariant startNewFile ==> removed == None && BetweenFiles(max, forwardPaths, polls, dstCompleted, used, files, sent)
      invariant !startNewFile && removed == None ==> HasFinished(max, forwardPaths, polls, dstCompleted, used, files, sent)
      invariant removed.Some? ==> HasFailed(max, forwardPaths, polls, dstCompleted, used, files, sent, removed)
      decreases |polls| - used, startNewFile
    {
      var broken, frames, path, ok, stop;
      ghost var before := used;
      broken, frames, path, ok, stop, used := FillFile(max, polls, used, PathOf(|files|));
      if broken.Some? {
        FileBreaksOff(max, forwardPaths, polls, dstCompleted, before, used, files, sent, frames, broken.value);
        return broken.value, files, sent, false, None, used;
      }
      if !ok {
        FileFails(max, forwardPaths, polls, dstCompleted, before, used, files, sent, frames, path, stop);
        removed, startNewFile := Some(path), false;
        continue;
      }
      FileDone(max, forwardPaths, polls, dstCompleted, before, used, files, sent, frames, path, stop);
      startNewFile := !stop;
      if frames != [] {
        files := files + [frames];
      }
      if forwardPaths {
        if !dstCompleted(|sent|) {
          sent := sent + [path];
        } else {
          startNewFile := false;
        }
      }
    }
    eos := forwardPaths;
    end := Finished(removed == None);
  }
}
