/**
 * `checkFileType` of the top-level utils.py, the older variant used by the
 * top-level faceDetection.py and faceMesh.py. The image list is the same,
 * but fourteen of the sixteen video suffixes carry a trailing comma inside
 * the string (".mp4," rather than ".mp4"), so ordinary video names fall
 * through to "other".
 */
module LegacyFileTypes {
  import opened Strings
  import opened FileTypes

  const LEGACY_VIDEO_SUFFIXES: seq<string> :=
    [".webm,", ".mpg,", ".mp2,", ".mpeg,", ".mpe,", ".mpv,", ".ogg,", ".mp4,",
     ".m4p,", ".m4v,", ".avi,", ".wmv,", ".mov,", ".qt,", ".flv", ".swf"]

  /** Same loop order as the newer variant: images first, then the comma-suffixed videos. */
  function CheckFileType(filename: string): (k: FileKind)
    ensures k == Image <==> exists x :: x in IMAGE_SUFFIXES && EndsWith(filename, x)
    ensures k == Video <==>
      (forall x :: x in IMAGE_SUFFIXES ==> !EndsWith(filename, x)) &&
      (exists x :: x in LEGACY_VIDEO_SUFFIXES && EndsWith(filename, x))
  {
    if EndsWithAny(filename, IMAGE_SUFFIXES) then Image
    else if EndsWithAny(filename, LEGACY_VIDEO_SUFFIXES) then Video
    else Other
  }

  /** Both variants agree on what is an image. */
  lemma SameImageRule(filename: string)
    ensures CheckFileType(filename) == Image <==> FileTypes.CheckFileType(filename) == Image
  {
  }

  /**
   * For a name that does not end in a comma, "video" means exactly a
   * ".flv" or ".swf" ending: every other video entry needs the comma.
   */
  lemma {:induction false} VideoOnlyFlvOrSwf(filename: string)
    requires filename == [] || filename[|filename| - 1] != ','
    ensures CheckFileType(filename) == Video <==> EndsWith(filename, ".flv") || EndsWith(filename, ".swf")
  {
    forall x | x in LEGACY_VIDEO_SUFFIXES && x != ".flv" && x != ".swf" && EndsWith(filename, x)
      ensures false
    {
    }
    if EndsWith(filename, ".flv") {
      VideoSuffixNeverShadowed(filename, ".flv");
    }
    if EndsWith(filename, ".swf") {
      VideoSuffixNeverShadowed(filename, ".swf");
    }
  }

  /** A name ending in an ordinary dotted video suffix ends in no entry of the legacy video list. */
  lemma NoLegacyVideoSuffix(filename: string, v: string)
    requires v in VIDEO_SUFFIXES && v != ".flv" && v != ".swf" && EndsWith(filename, v)
    ensures forall x :: x in LEGACY_VIDEO_SUFFIXES ==> !EndsWith(filename, x)
  {
    assert v[|v| - 1] != ',';
    assert filename[|filename| - |v|..][|v| - 1] == filename[|filename| - 1];
    forall x | x in LEGACY_VIDEO_SUFFIXES && EndsWith(filename, x)
      ensures false
    {
      if x == ".flv" || x == ".swf" {
        if |v| <= 4 { SuffixesNest(filename, v, x); } else { SuffixesNest(filename, x, v); }
      }
    }
  }

  /**
   * Every name that ends in one of the fourteen ordinary dotted video
   * suffixes of the newer list (all but ".flv" and ".swf") is "other" here.
   */
  lemma OrdinaryVideoIsOther(filename: string, v: string)
    requires v in VIDEO_SUFFIXES && v != ".flv" && v != ".swf" && EndsWith(filename, v)
    ensures CheckFileType(filename) == Other
  {
    VideoSuffixNeverShadowed(filename, v);
    assert !EndsWithAny(filename, IMAGE_SUFFIXES);
    NoLegacyVideoSuffix(filename, v);
    assert !EndsWithAny(filename, LEGACY_VIDEO_SUFFIXES);
  }

  /** "clip.mp4", "clip.avi" and "clip.mov", and any other name with these extensions, are "other" here. */
  lemma CommonVideosAreOther(stem: string)
    ensures CheckFileType(stem + ".mp4") == Other
    ensures CheckFileType(stem + ".avi") == Other
    ensures CheckFileType(stem + ".mov") == Other
  {
    EndsWithAppend(stem, ".mp4");
    OrdinaryVideoIsOther(stem + ".mp4", ".mp4");
    EndsWithAppend(stem, ".avi");
    OrdinaryVideoIsOther(stem + ".avi", ".avi");
    EndsWithAppend(stem, ".mov");
    OrdinaryVideoIsOther(stem + ".mov", ".mov");
  }

  /** Only the last six characters of a name decide its kind. */
  lemma DependsOnLastSix(prefix: string, filename: string)
    requires |filename| >= 6
    ensures CheckFileType(prefix + filename) == CheckFileType(filename)
  {
    forall x | x in IMAGE_SUFFIXES + LEGACY_VIDEO_SUFFIXES
      ensures EndsWith(prefix + filename, x) <==> EndsWith(filename, x)
    {
      EndsWithPrepend(prefix, filename, x);
    }
    assert forall x :: x in IMAGE_SUFFIXES ==> x in IMAGE_SUFFIXES + LEGACY_VIDEO_SUFFIXES;
    assert forall x :: x in LEGACY_VIDEO_SUFFIXES ==> x in IMAGE_SUFFIXES + LEGACY_VIDEO_SUFFIXES;
  }

  /** A name that literally ends in ".mp4,", such as "clip.mp4,", is a video. */
  lemma CommaNameIsVideo(stem: string)
    ensures CheckFileType(stem + ".mp4,") == Video
  {
    var name := stem + ".mp4,";
    EndsWithAppend(stem, ".mp4,");
    assert ".mp4," in LEGACY_VIDEO_SUFFIXES;
    assert name[|name| - 1] == ',';
    forall x | x in IMAGE_SUFFIXES && EndsWith(name, x)
      ensures false
    {
      EndsWithCharFromEnd(name, x, 1);
    }
  }

  /** Matching is case-sensitive here too: "A.JPG" and "B.MP4", whatever the stem, are "other". */
  lemma UpperCaseIsOther(stem: string)
    ensures CheckFileType(stem + ".JPG") == Other
    ensures CheckFileType(stem + ".MP4") == Other
  {
    FileTypes.UpperCaseIsOther(stem);
    UpperCaseNameIsOther(stem + ".JPG");
    UpperCaseNameIsOther(stem + ".MP4");
  }

  /**
   * A name the newer classifier calls "other" that ends in neither a comma
   * nor the last letter of ".flv" or ".swf" is "other" here as well.
   */
  lemma UpperCaseNameIsOther(name: string)
    requires FileTypes.CheckFileType(name) == Other
    requires |name| > 0 && name[|name| - 1] !in ",vf"
    ensures CheckFileType(name) == Other
  {
    SameImageRule(name);
    VideoOnlyFlvOrSwf(name);
    if EndsWith(name, ".flv") {
      EndsWithCharFromEnd(name, ".flv", 1);
    }
    if EndsWith(name, ".swf") {
      EndsWithCharFromEnd(name, ".swf", 1);
    }
  }
}
