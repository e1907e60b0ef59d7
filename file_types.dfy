/**
 * `checkFileType` of src/modules/utils.py: classify a file name by suffix.
 * Image suffixes are tried first and carry no leading dot; video suffixes
 * carry one. Matching is Python's case-sensitive `str.endswith`.
 */
module FileTypes {
  import opened Strings

  /** The three strings the classifier returns. */
  datatype FileKind = Image | Video | Other {
    function Name(): string {
      match this
      case Image => "image"
      case Video => "video"
      case Other => "other"
    }
  }

  const IMAGE_SUFFIXES: seq<string> :=
    ["jpg", "png", "gif", "webp", "tiff", "psd", "raw", "bmp", "heif", "indd", "jpeg"]

  const VIDEO_SUFFIXES: seq<string> :=
    [".webm", ".mpg", ".mp2", ".mpeg", ".mpe", ".mpv", ".ogg", ".mp4",
     ".m4p", ".m4v", ".avi", ".wmv", ".mov", ".qt", ".flv", ".swf"]

  /** The image loop runs first and returns at the first match; then the video loop. */
  function CheckFileType(filename: string): (k: FileKind)
    ensures k == Image <==> exists x :: x in IMAGE_SUFFIXES && EndsWith(filename, x)
    ensures k == Video <==>
      (forall x :: x in IMAGE_SUFFIXES ==> !EndsWith(filename, x)) &&
      (exists x :: x in VIDEO_SUFFIXES && EndsWith(filename, x))
  {
    if EndsWithAny(filename, IMAGE_SUFFIXES) then Image
    else if EndsWithAny(filename, VIDEO_SUFFIXES) then Video
    else Other
  }

  /** No image suffix is a suffix of a video suffix, and no video suffix of an image suffix. */
  lemma SuffixListsDoNotNest()
    ensures forall v, i :: v in VIDEO_SUFFIXES && i in IMAGE_SUFFIXES ==> !EndsWith(v, i) && !EndsWith(i, v)
  {
    forall v, i | v in VIDEO_SUFFIXES && i in IMAGE_SUFFIXES
      ensures !EndsWith(i, v)
    {
      assert v[0] == '.' && '.' !in i;
    }
    forall v | v in VIDEO_SUFFIXES
      ensures forall i :: i in IMAGE_SUFFIXES ==> !EndsWith(v, i)
    {
      NoImageSuffixOf(v);
    }
  }

  /** No image suffix ends video suffix `v`. */
  predicate NoImageSuffixEnds(v: string) {
    forall i :: i in IMAGE_SUFFIXES ==> !EndsWith(v, i)
  }

  /** No image suffix ends a given video suffix: checked for each entry of the list in turn. */
  lemma NoImageSuffixOf(v: string)
    requires v in VIDEO_SUFFIXES
    ensures NoImageSuffixEnds(v)
  {
    var k :| 0 <= k < |VIDEO_SUFFIXES| && VIDEO_SUFFIXES[k] == v;
    if k == 0 {
      NoImageSuffixOf0();
    } else if k == 1 {
      NoImageSuffixOf1();
    } else if k == 2 {
      NoImageSuffixOf2();
    } else if k == 3 {
      NoImageSuffixOf3();
    } else if k == 4 {
      NoImageSuffixOf4();
    } else if k == 5 {
      NoImageSuffixOf5();
    } else if k == 6 {
      NoImageSuffixOf6();
    } else if k == 7 {
      NoImageSuffixOf7();
    } else if k == 8 {
      NoImageSuffixOf8();
    } else if k == 9 {
      NoImageSuffixOf9();
    } else if k == 10 {
      NoImageSuffixOf10();
    } else if k == 11 {
      NoImageSuffixOf11();
    } else if k == 12 {
      NoImageSuffixOf12();
    } else if k == 13 {
      NoImageSuffixOf13();
    } else if k == 14 {
      NoImageSuffixOf14();
    } else {
      NoImageSuffixOf15();
    }
  }

  // One entry of the video list per lemma, ".webm" first.
  lemma NoImageSuffixOf0() ensures NoImageSuffixEnds(VIDEO_SUFFIXES[0]) { }
  lemma NoImageSuffixOf1() ensures NoImageSuffixEnds(VIDEO_SUFFIXES[1]) { }
  lemma NoImageSuffixOf2() ensures NoImageSuffixEnds(VIDEO_SUFFIXES[2]) { }
  lemma NoImageSuffixOf3() ensures NoImageSuffixEnds(VIDEO_SUFFIXES[3]) { }
  lemma NoImageSuffixOf4() ensures NoImageSuffixEnds(VIDEO_SUFFIXES[4]) { }
  lemma NoImageSuffixOf5() ensures NoImageSuffixEnds(VIDEO_SUFFIXES[5]) { }
  lemma NoImageSuffixOf6() ensures NoImageSuffixEnds(VIDEO_SUFFIXES[6]) { }
  lemma NoImageSuffixOf7() ensures NoImageSuffixEnds(VIDEO_SUFFIXES[7]) { }
  lemma NoImageSuffixOf8() ensures NoImageSuffixEnds(VIDEO_SUFFIXES[8]) { }
  lemma NoImageSuffixOf9() ensures NoImageSuffixEnds(VIDEO_SUFFIXES[9]) { }
  lemma NoImageSuffixOf10() ensures NoImageSuffixEnds(VIDEO_SUFFIXES[10]) { }
  lemma NoImageSuffixOf11() ensures NoImageSuffixEnds(VIDEO_SUFFIXES[11]) { }
  lemma NoImageSuffixOf12() ensures NoImageSuffixEnds(VIDEO_SUFFIXES[12]) { }
  lemma NoImageSuffixOf13() ensures NoImageSuffixEnds(VIDEO_SUFFIXES[13]) { }
  lemma NoImageSuffixOf14() ensures NoImageSuffixEnds(VIDEO_SUFFIXES[14]) { }
  lemma NoImageSuffixOf15() ensures NoImageSuffixEnds(VIDEO_SUFFIXES[15]) { }

  /** Every video suffix wins over the image list: a name ending in one is always "video". */
  lemma VideoSuffixNeverShadowed(filename: string, v: string)
    requires v in VIDEO_SUFFIXES && EndsWith(filename, v)
    ensures CheckFileType(filename) == Video
  {
    SuffixListsDoNotNest();
    forall i | i in IMAGE_SUFFIXES && EndsWith(filename, i)
      ensures false
    {
      if |i| <= |v| {
        SuffixesNest(filename, i, v);
      } else {
        SuffixesNest(filename, v, i);
      }
    }
  }

  /** Only the last five characters of a name decide its kind. */
  lemma DependsOnLastFive(prefix: string, filename: string)
    requires |filename| >= 5
    ensures CheckFileType(prefix + filename) == CheckFileType(filename)
  {
    forall x | x in IMAGE_SUFFIXES + VIDEO_SUFFIXES
      ensures EndsWith(prefix + filename, x) <==> EndsWith(filename, x)
    {
      EndsWithPrepend(prefix, filename, x);
    }
    assert forall x :: x in IMAGE_SUFFIXES ==> x in IMAGE_SUFFIXES + VIDEO_SUFFIXES;
    assert forall x :: x in VIDEO_SUFFIXES ==> x in IMAGE_SUFFIXES + VIDEO_SUFFIXES;
  }

  /** The image suffixes have no dot, so a bare "jpg" or "raw" ending is enough ("notesjpg", "xraw"). */
  lemma UndottedImageSuffixes(stem: string)
    ensures CheckFileType(stem + "jpg") == Image
    ensures CheckFileType(stem + "raw") == Image
  {
    EndsWithAppend(stem, "jpg");
    EndsWithAppend(stem, "raw");
    assert "jpg" in IMAGE_SUFFIXES && "raw" in IMAGE_SUFFIXES;
  }

  /** Names with ordinary video extensions are videos, whatever precedes the extension. */
  lemma CommonVideoNames(stem: string)
    ensures CheckFileType(stem + ".mp4") == Video
    ensures CheckFileType(stem + ".mpeg") == Video
    ensures CheckFileType(stem + ".webm") == Video
    ensures CheckFileType(stem + ".qt") == Video
  {
    EndsWithAppend(stem, ".mp4");
    VideoSuffixNeverShadowed(stem + ".mp4", ".mp4");
    EndsWithAppend(stem, ".mpeg");
    VideoSuffixNeverShadowed(stem + ".mpeg", ".mpeg");
    EndsWithAppend(stem, ".webm");
    VideoSuffixNeverShadowed(stem + ".webm", ".webm");
    EndsWithAppend(stem, ".qt");
    VideoSuffixNeverShadowed(stem + ".qt", ".qt");
  }

  /** Matching is case-sensitive: upper-case extensions such as "A.JPG" and "B.MP4" match nothing. */
  lemma UpperCaseIsOther(stem: string)
    ensures CheckFileType(stem + ".JPG") == Other
    ensures CheckFileType(stem + ".MP4") == Other
  {
    assert (stem + ".JPG")[|stem| + 2] == 'P';
    NoImageSuffixMatches(stem + ".JPG");
    NoVideoSuffixMatches(stem + ".JPG");
    assert (stem + ".MP4")[|stem| + 2] == 'P';
    NoImageSuffixMatches(stem + ".MP4");
    NoVideoSuffixMatches(stem + ".MP4");
  }

  /**
   * Every image suffix has a lower-case letter as its next-to-last
   * character, so a name with an upper-case letter there ends in none of them.
   */
  lemma NoImageSuffixMatches(name: string)
    requires |name| >= 2 && 'A' <= name[|name| - 2] <= 'Z'
    ensures forall x :: x in IMAGE_SUFFIXES ==> !EndsWith(name, x)
  {
    forall x | x in IMAGE_SUFFIXES && EndsWith(name, x)
      ensures false
    {
      EndsWithCharFromEnd(name, x, 2);
    }
  }

  /**
   * Every video suffix has a lower-case letter or a digit as its
   * next-to-last character, so a name with an upper-case letter there
   * ends in none of them.
   */
  lemma NoVideoSuffixMatches(name: string)
    requires |name| >= 2 && 'A' <= name[|name| - 2] <= 'Z'
    ensures forall x :: x in VIDEO_SUFFIXES ==> !EndsWith(name, x)
  {
    forall x | x in VIDEO_SUFFIXES && EndsWith(name, x)
      ensures false
    {
      EndsWithCharFromEnd(name, x, 2);
    }
  }
}
