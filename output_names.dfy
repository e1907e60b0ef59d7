/**
 * Where the scripts' `main` functions write their results. Every name is
 * built from the last component of the input path (`filename.split(os.sep)[-1]`,
 * with `os.sep` taken to be '/') under `out/<category>/`. Two layouts occur:
 *
 * - Direct: an image goes to out/<category>/<base>; a video's frames go to
 *   out/<category>/buffer-<base>, which is muxed with the audio into
 *   out/<category>/<base>. The message printed at the end names
 *   `outputFilename.replace("buffer-", "")` with outputFilename = out/<category>/<base>.
 * - Buffer: the name out/<category>/buffer-<base> is used for both kinds; an
 *   image is written to it as it stands, a video is muxed into
 *   `name.replace("buffer-", "", 1)`, and the message names the buffer name.
 *
 * A name classified "other" stops the script before anything is read.
 */
module OutputNames {
  import opened Strings
  import opened FileTypes

  const SEP: char := '/'

  const BUFFER_PREFIX: string := "buffer-"

  /** `filename.split(os.sep)[-1]`. */
  function BaseName(filename: string): string {
    LastComponent(filename, SEP)
  }

  datatype Plan =
    | Unsupported
    | WriteImage(path: string, reported: string)
    | WriteVideo(buffer: string, muxed: string, reported: string)

  function CategoryDir(category: string): string {
    "out/" + category + "/"
  }

  /** The direct layout of handTracking.py, faceDetection.py and both faceMesh.py. */
  function DirectPlan(category: string, kind: FileKind, filename: string): Plan {
    var dir := CategoryDir(category);
    var output := dir + BaseName(filename);
    match kind
    case Other => Unsupported
    case Image => WriteImage(output, ReplaceAll(output, BUFFER_PREFIX, ""))
    case Video => WriteVideo(dir + BUFFER_PREFIX + BaseName(filename), output, ReplaceAll(output, BUFFER_PREFIX, ""))
  }

  /** The buffer layout of src/modules/poseEstimation.py and the top-level faceDetection.py. */
  function BufferPlan(category: string, kind: FileKind, filename: string): Plan {
    var output := CategoryDir(category) + BUFFER_PREFIX + BaseName(filename);
    match kind
    case Other => Unsupported
    case Image => WriteImage(output, output)
    case Video => WriteVideo(output, ReplaceFirst(output, BUFFER_PREFIX, ""), output)
  }

  /** The directory part never holds the first letter of "buffer-" when the category does not. */
  lemma CategoryDirLacksB(category: string)
    requires 'b' !in category
    ensures BUFFER_PREFIX[0] !in CategoryDir(category)
  {
  }

  /** Removing the first "buffer-" from dir + "buffer-" + base gives dir + base. */
  lemma StripBufferPrefix(dir: string, base: string)
    requires BUFFER_PREFIX[0] !in dir
    ensures ReplaceFirst(dir + BUFFER_PREFIX + base, BUFFER_PREFIX, "") == dir + base
  {
    ReplaceFirstPrefix(dir, BUFFER_PREFIX + base, BUFFER_PREFIX, "");
    ReplaceFirstAtStart(BUFFER_PREFIX, base, "");
    assert dir + BUFFER_PREFIX + base == dir + (BUFFER_PREFIX + base);
    assert "" + base == base;
  }

  /**
   * Direct layout: a video's buffer is out/<category>/buffer-<base> and
   * stripping the first "buffer-" from it gives the muxed name
   * out/<category>/<base>, which is also where an image goes.
   */
  lemma DirectPlanNames(category: string, kind: FileKind, filename: string)
    requires 'b' !in category
    ensures var p := DirectPlan(category, kind, filename);
      var base := BaseName(filename);
      && (p.Unsupported? <==> kind == Other)
      && (p.WriteImage? <==> kind == Image)
      && (p.WriteVideo? <==> kind == Video)
      && (p.WriteImage? ==> p.path == CategoryDir(category) + base)
      && (p.WriteVideo? ==>
           p.buffer == CategoryDir(category) + BUFFER_PREFIX + base &&
           p.muxed == CategoryDir(category) + base &&
           ReplaceFirst(p.buffer, BUFFER_PREFIX, "") == p.muxed)
  {
    if kind == Video {
      CategoryDirLacksB(category);
      StripBufferPrefix(CategoryDir(category), BaseName(filename));
    }
  }

  /**
   * Direct layout: the reported name strips "buffer-" only inside the base
   * name, so it equals the written name unless the base name itself holds
   * "buffer-".
   */
  lemma DirectPlanReported(category: string, kind: FileKind, filename: string)
    requires 'b' !in category && kind != Other
    ensures var base := BaseName(filename);
      DirectPlan(category, kind, filename).reported == CategoryDir(category) + ReplaceAll(base, BUFFER_PREFIX, "")
    ensures var base := BaseName(filename);
      (forall i :: !OccursAt(base, BUFFER_PREFIX, i)) ==>
      DirectPlan(category, kind, filename).reported == CategoryDir(category) + base
  {
    var base := BaseName(filename);
    CategoryDirLacksB(category);
    ReplaceAllPrefix(CategoryDir(category), base, BUFFER_PREFIX, "");
    if forall i :: !OccursAt(base, BUFFER_PREFIX, i) {
      ReplaceAllWithoutOccurrence(base, BUFFER_PREFIX, "");
    }
  }

  /**
   * Buffer layout: an image is written to out/<category>/buffer-<base>
   * itself; a video is muxed into out/<category>/<base>, the buffer name
   * with its first "buffer-" removed; the reported name is always the buffer name.
   */
  lemma BufferPlanNames(category: string, kind: FileKind, filename: string)
    requires 'b' !in category
    ensures var p := BufferPlan(category, kind, filename);
      var base := BaseName(filename);
      && (p.Unsupported? <==> kind == Other)
      && (p.WriteImage? <==> kind == Image)
      && (p.WriteVideo? <==> kind == Video)
      && (p.WriteImage? ==> p.path == CategoryDir(category) + BUFFER_PREFIX + base)
      && (p.WriteVideo? ==>
           p.buffer == CategoryDir(category) + BUFFER_PREFIX + base &&
           p.muxed == CategoryDir(category) + base)
      && (p.WriteImage? ==> p.reported == p.path)
      && (p.WriteVideo? ==> p.reported == p.buffer)
  {
    if kind == Video {
      CategoryDirLacksB(category);
      StripBufferPrefix(CategoryDir(category), BaseName(filename));
    }
  }
}
