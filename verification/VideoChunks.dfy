/** How a sequence of frames is cut into video files of at most `max` frames. */
module VideoChunks {
  import opened Arithmetic

  function Concat<F>(files: seq<seq<F>>): seq<F> {
    if files == [] then [] else files[0] + Concat(files[1..])
  }

  /** The greedy cut: full files, then one shorter file if frames remain. */
  function Chunks<F>(frames: seq<F>, max: nat): seq<seq<F>>
    requires max > 0
  {
    if frames == [] then []
    else if |frames| <= max then [frames]
    else [frames[..max]] + Chunks(frames[max..], max)
  }

  predicate AllFull<F>(files: seq<seq<F>>, max: nat) {
    forall i | 0 <= i < |files| :: |files[i]| == max
  }

  lemma {:induction false} ConcatAppend<F>(files: seq<seq<F>>, last: seq<F>)
    ensures Concat(files + [last]) == Concat(files) + last
  {
    if files == [] {
      assert files + [last] == [last];
    } else {
      ConcatAppend(files[1..], last);
      assert (files + [last])[1..] == files[1..] + [last];
    }
  }

  lemma ChunksStep<F>(first: seq<F>, later: seq<F>, max: nat)
    requires max > 0 && |first| == max
    ensures Chunks(first + later, max) == [first] + Chunks(later, max)
  {
    if later == [] {
      assert first + later == first;
    } else {
      assert (first + later)[..max] == first && (first + later)[max..] == later;
    }
  }

  /** Full files followed by the cut of the rest are the cut of the whole. */
  lemma {:induction false} ChunksOfFull<F>(files: seq<seq<F>>, rest: seq<F>, max: nat)
    requires max > 0 && AllFull(files, max)
    ensures Chunks(Concat(files) + rest, max) == files + Chunks(rest, max)
  {
    if files == [] {
      assert Concat(files) + rest == rest;
    } else {
      var later := Concat(files[1..]) + rest;
      ChunksOfFull(files[1..], rest, max);
      ChunksStep(files[0], later, max);
      assert Concat(files) + rest == files[0] + later;
      assert files + Chunks(rest, max) == [files[0]] + (files[1..] + Chunks(rest, max));
    }
  }

  /** The cut loses nothing, makes only files of 1 to `max` frames, all but the last of them full,
      and so uses ceil(n / max) files. */
  lemma {:induction false} ChunksCut<F>(frames: seq<F>, max: nat)
    requires max > 0
    ensures var files := Chunks(frames, max);
            && Concat(files) == frames
            && (forall i | 0 <= i < |files| :: 1 <= |files[i]| <= max)
            && (forall i | 0 <= i < |files| - 1 :: |files[i]| == max)
            && |files| == (|frames| + max - 1) / max
  {
    if frames == [] {
      assert (max - 1) / max == 0 by { QuotientUnique(0, max - 1, max); }
    } else if |frames| <= max {
      assert Concat([frames]) == frames;
      DivStep(|frames| - 1, max);
      QuotientUnique(0, |frames| - 1, max);
    } else {
      ChunksCut(frames[max..], max);
      DivStep(|frames| - 1, max);
      assert frames == frames[..max] + frames[max..];
    }
  }
}
