/** `batch_test`: every entry of the source directory listing is processed in
    listing order and its result is saved under the destination directory as
    `<stem>.png`. A failing entry aborts the rest of the run; the files saved
    before it stay written. The run is modelled as the log of its saves:
    entries sharing a stem save to the same path, the later one overwriting. */
module Batch {
  import opened Common
  import opened Naming

  /** The extension every batch output is written with. */
  const OUTPUT_EXT: string := ".png"

  /** One written output file: where it went and what was written. */
  datatype Saved<O> = Saved(path: string, output: O)

  /** `get_images_from_dir`: the listing's entries joined onto the directory,
      in listing order. */
  function ImagesInDir(dir: string, entries: seq<string>): (paths: seq<string>)
    ensures |paths| == |entries|
    ensures forall i :: 0 <= i < |entries| ==> paths[i] == Join(dir, entries[i])
    ensures forall i :: 0 <= i < |entries| && '/' !in entries[i] ==>
      Basename(paths[i]) == entries[i]
  {
    var paths := seq(|entries|, i requires 0 <= i < |entries| => Join(dir, entries[i]));
    assert forall i :: 0 <= i < |entries| && '/' !in entries[i] ==> Basename(paths[i]) == entries[i] by {
      forall i | 0 <= i < |entries| && '/' !in entries[i] {
        BasenameOfJoin(dir, entries[i]);
      }
    }
    paths
  }

  /** Where the output for source `path` is written. */
  function OutputPath(dstDir: string, path: string): string {
    Join(dstDir, Stem(path) + OUTPUT_EXT)
  }

  /** The loop of `batch_test`. `dstDir` is the freshly created timestamped
      destination directory and `process` stands for opening the image and
      removing its background. */
  method BatchTest<O, E>(srcDir: string, dstDir: string, entries: seq<string>,
                         process: string -> Result<O, E>)
    returns (saved: seq<Saved<O>>, failure: Option<E>)
    ensures |saved| <= |entries|
    ensures forall i :: 0 <= i < |saved| ==>
      && process(Join(srcDir, entries[i])).Success?
      && saved[i] == Saved(OutputPath(dstDir, Join(srcDir, entries[i])),
                           process(Join(srcDir, entries[i])).value)
    ensures failure.None? <==> |saved| == |entries|
    ensures failure.Some? ==> process(Join(srcDir, entries[|saved|])) == Failure(failure.value)
  {
    var images := ImagesInDir(srcDir, entries);
    saved := [];
    failure := None;
    var i := 0;
    while i < |images|
      invariant i <= |images| && |saved| == i
      invariant forall j :: 0 <= j < i ==>
        && process(Join(srcDir, entries[j])).Success?
        && saved[j] == Saved(OutputPath(dstDir, Join(srcDir, entries[j])),
                             process(Join(srcDir, entries[j])).value)
    {
      var image := images[i];
      match process(image)
      case Failure(e) =>
        failure := Some(e);
        return;
      case Success(result) =>
        saved := saved + [Saved(OutputPath(dstDir, image), result)];
      i := i + 1;
    }
  }

  /** With a listing of plain names (no separators), output i of a completed
      run is named after entry i's stem with the `.png` extension, directly
      under the destination directory. */
  lemma OutputNamesFollowEntries(srcDir: string, dstDir: string, entries: seq<string>, i: nat)
    requires i < |entries| && forall j :: 0 <= j < |entries| ==> '/' !in entries[j]
    ensures OutputPath(dstDir, Join(srcDir, entries[i])) == Join(dstDir, SplitExt(entries[i]).root + OUTPUT_EXT)
    ensures Basename(OutputPath(dstDir, Join(srcDir, entries[i]))) == SplitExt(entries[i]).root + OUTPUT_EXT
  {
    StemOfEntry(srcDir, entries[i]);
    BasenameOfJoin(dstDir, SplitExt(entries[i]).root + OUTPUT_EXT);
  }

  /** Two listed entries with the same root, such as `a.jpg` and `a.png`,
      are written to the same output path, so the later save replaces the
      earlier file. */
  lemma SameRootSameOutput(srcDir: string, dstDir: string, a: string, b: string)
    requires '/' !in a && '/' !in b && SplitExt(a).root == SplitExt(b).root
    ensures OutputPath(dstDir, Join(srcDir, a)) == OutputPath(dstDir, Join(srcDir, b))
  {
    StemOfEntry(srcDir, a);
    StemOfEntry(srcDir, b);
  }
}
