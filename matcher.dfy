/** The decision logic of `VideoFaceMatcher`: the embedding distance
    `face_match`, the first-index minimum search over the gallery in
    `run_camera` with its match threshold, the quit-key test `handle_keys`,
    and the user login that `load_validated_image_list` derives from an
    enrolled image's path. */
module FaceMatching {
  import opened Channel

  /** `FACE_MATCH_THRESHOLD`: a distance at or below it is a match. */
  const FaceMatchThreshold: real := 0.8
  /** The initial `min_distance` of the search, above any real match. */
  const NoMatchDistance: real := 100.0

  /** What `face_match` returns: the total squared difference, or `False`
      when the two embeddings differ in length. */
  datatype MatchResult = Distance(total: real) | LengthMismatch

  /** `numpy.square` of one difference. */
  function Square(x: real): (y: real)
    ensures 0.0 <= y
  {
    x * x
  }

  /** Sum of squared element-wise differences, accumulated from the front. */
  function SumSquaredDiff(a: seq<real>, b: seq<real>): (d: real)
    requires |a| == |b|
    ensures 0.0 <= d
  {
    if |a| == 0 then 0.0
    else
      SumSquaredDiff(a[..|a| - 1], b[..|a| - 1]) + Square(a[|a| - 1] - b[|a| - 1])
  }

  /** The value `face_match(face1, face2)` returns. */
  function FaceMatchOf(face1: seq<real>, face2: seq<real>): MatchResult
  {
    if |face1| != |face2| then LengthMismatch else Distance(SumSquaredDiff(face1, face2))
  }

  /** The log record `face_match` emits. The text rendering of the float in
      "Total Difference is: ..." is not modelled: the record carries the number. */
  function FaceMatchLog(face1: seq<real>, face2: seq<real>): Record
  {
    if |face1| != |face2| then Record("log", JStr("length mismatch in face_match"))
    else Record("log", JNum(SumSquaredDiff(face1, face2)))
  }

  method FaceMatch(face1Output: seq<real>, face2Output: seq<real>) returns (r: MatchResult, log: Record)
    ensures |face1Output| != |face2Output| <==> r == LengthMismatch
    ensures r.Distance? ==> r.total == SumSquaredDiff(face1Output, face2Output) && 0.0 <= r.total
    ensures log == FaceMatchLog(face1Output, face2Output)
  {
    if |face1Output| != |face2Output| {
      return LengthMismatch, Record("log", JStr("length mismatch in face_match"));
    }
    var totalDiff := 0.0;
    for outputIndex := 0 to |face1Output|
      invariant totalDiff == SumSquaredDiff(face1Output[..outputIndex], face2Output[..outputIndex])
    {
      var thisDiff := Square(face1Output[outputIndex] - face2Output[outputIndex]);
      assert face1Output[..outputIndex + 1][..outputIndex] == face1Output[..outputIndex];
      assert face2Output[..outputIndex + 1][..outputIndex] == face2Output[..outputIndex];
      totalDiff := totalDiff + thisDiff;
    }
    assert face1Output[..|face1Output|] == face1Output && face2Output[..|face2Output|] == face2Output;
    return Distance(totalDiff), Record("log", JNum(totalDiff));
  }

  lemma {:induction false} DistanceToSelfIsZero(a: seq<real>)
    ensures SumSquaredDiff(a, a) == 0.0
  {
    if |a| > 0 {
      DistanceToSelfIsZero(a[..|a| - 1]);
    }
  }

  lemma {:induction false} DistanceIsSymmetric(a: seq<real>, b: seq<real>)
    requires |a| == |b|
    ensures SumSquaredDiff(a, b) == SumSquaredDiff(b, a)
  {
    if |a| > 0 {
      DistanceIsSymmetric(a[..|a| - 1], b[..|a| - 1]);
    }
  }

  /** How the search compares a result: Python orders `False` as `0`. */
  function Comparable(r: MatchResult): real
  {
    match r
    case Distance(d) => d
    case LengthMismatch => 0.0
  }

  /** The distances the search in `run_camera` compares, one per gallery entry. */
  function GalleryDistances(validOutput: seq<seq<real>>, testOutput: seq<real>): (ds: seq<real>)
    ensures |ds| == |validOutput|
  {
    seq(|validOutput|, i requires 0 <= i < |validOutput| => Comparable(FaceMatchOf(validOutput[i], testOutput)))
  }

  /** `minDistance` and `minIndex` are what a first-index minimum search with
      a strict `<`, started from `100` and `-1`, leaves behind. */
  ghost predicate IsFirstMinimum(ds: seq<real>, minDistance: real, minIndex: int)
  {
    && minDistance <= NoMatchDistance
    && (forall i :: 0 <= i < |ds| ==> minDistance <= ds[i])
    && (minIndex == -1 <==> forall i :: 0 <= i < |ds| ==> NoMatchDistance <= ds[i])
    && (minIndex == -1 ==> minDistance == NoMatchDistance)
    && (minIndex != -1 ==>
          && 0 <= minIndex < |ds|
          && minDistance == ds[minIndex]
          && forall j :: 0 <= j < minIndex ==> minDistance < ds[j])
  }

  function MatchVerdictLog(foundMatch: bool, imageName: string): Record
  {
    if foundMatch then Record("log", JStr("PASS!  File matches " + imageName))
    else Record("log", JStr("FAIL!  File does not match any image."))
  }

  /** The per-frame search of `run_camera` as written: every gallery
      embedding is compared with the live one, the first smallest distance
      below 100 wins, and it is a match when it is at most the threshold.
      Returns the logs the search emits: one per comparison, then the verdict. */
  method SelectMatch(validOutput: seq<seq<real>>, testOutput: seq<real>, validatedImageList: seq<string>)
    returns (minDistance: real, minIndex: int, foundMatch: bool, logs: seq<Record>)
    requires |validatedImageList| == |validOutput|
    ensures IsFirstMinimum(GalleryDistances(validOutput, testOutput), minDistance, minIndex)
    ensures foundMatch <==> minDistance <= FaceMatchThreshold
    ensures foundMatch ==> 0 <= minIndex < |validOutput|
    ensures |logs| == |validOutput| + 1
    ensures forall i :: 0 <= i < |validOutput| ==> logs[i] == FaceMatchLog(validOutput[i], testOutput)
    ensures logs[|validOutput|] == MatchVerdictLog(foundMatch, if foundMatch then validatedImageList[minIndex] else "")
  {
    ghost var ds := GalleryDistances(validOutput, testOutput);
    minDistance := NoMatchDistance;
    minIndex := -1;
    logs := [];
    for i := 0 to |validOutput|
      invariant |logs| == i
      invariant forall k :: 0 <= k < i ==> logs[k] == FaceMatchLog(validOutput[k], testOutput)
      invariant IsFirstMinimum(ds[..i], minDistance, minIndex)
    {
      var result, log := FaceMatch(validOutput[i], testOutput);
      logs := logs + [log];
      var distance := Comparable(result);
      assert ds[i] == distance;
      if distance < minDistance {
        minDistance := distance;
        minIndex := i;
      }
    }
    assert ds[..|validOutput|] == ds;
    if minDistance <= FaceMatchThreshold {
      foundMatch := true;
      logs := logs + [MatchVerdictLog(true, validatedImageList[minIndex])];
    } else {
      foundMatch := false;
      logs := logs + [MatchVerdictLog(false, "")];
    }
  }

  /** As written, a gallery entry whose length differs from the live
      embedding compares as distance 0, so the frame is reported as a match
      even when no embedding is close. */
  lemma MismatchedEntryPassesThreshold(validOutput: seq<seq<real>>, testOutput: seq<real>, k: int,
                                       minDistance: real, minIndex: int)
    requires 0 <= k < |validOutput| && |validOutput[k]| != |testOutput|
    requires IsFirstMinimum(GalleryDistances(validOutput, testOutput), minDistance, minIndex)
    ensures minDistance == 0.0 && minDistance <= FaceMatchThreshold
    ensures 0 <= minIndex <= k
  {
    var ds := GalleryDistances(validOutput, testOutput);
    assert ds[k] == 0.0 < NoMatchDistance;
    forall i | 0 <= i < |ds| ensures 0.0 <= ds[i] {
      match FaceMatchOf(validOutput[i], testOutput)
      case Distance(d) =>
      case LengthMismatch =>
    }
  }

  /** The distance the search should compare: a length mismatch is an
      integration error and counts as no match at all. */
  function CheckedDistance(r: MatchResult): real
  {
    match r
    case Distance(d) => d
    case LengthMismatch => NoMatchDistance
  }

  function CheckedGalleryDistances(validOutput: seq<seq<real>>, testOutput: seq<real>): (ds: seq<real>)
    ensures |ds| == |validOutput|
  {
    seq(|validOutput|, i requires 0 <= i < |validOutput| => CheckedDistance(FaceMatchOf(validOutput[i], testOutput)))
  }

  /** The search with mismatched entries skipped. */
  method SelectMatchChecked(validOutput: seq<seq<real>>, testOutput: seq<real>, validatedImageList: seq<string>)
    returns (minDistance: real, minIndex: int, foundMatch: bool, logs: seq<Record>)
    requires |validatedImageList| == |validOutput|
    ensures IsFirstMinimum(CheckedGalleryDistances(validOutput, testOutput), minDistance, minIndex)
    ensures foundMatch <==> minDistance <= FaceMatchThreshold
    ensures foundMatch ==> 0 <= minIndex < |validOutput| && |validOutput[minIndex]| == |testOutput|
    ensures foundMatch ==> SumSquaredDiff(validOutput[minIndex], testOutput) <= FaceMatchThreshold
    ensures |logs| == |validOutput| + 1
    ensures forall i :: 0 <= i < |validOutput| ==> logs[i] == FaceMatchLog(validOutput[i], testOutput)
    ensures logs[|validOutput|] == MatchVerdictLog(foundMatch, if foundMatch then validatedImageList[minIndex] else "")
  {
    ghost var ds := CheckedGalleryDistances(validOutput, testOutput);
    minDistance := NoMatchDistance;
    minIndex := -1;
    logs := [];
    for i := 0 to |validOutput|
      invariant |logs| == i
      invariant forall k :: 0 <= k < i ==> logs[k] == FaceMatchLog(validOutput[k], testOutput)
      invariant IsFirstMinimum(ds[..i], minDistance, minIndex)
    {
      var result, log := FaceMatch(validOutput[i], testOutput);
      logs := logs + [log];
      assert ds[i] == CheckedDistance(result);
      if result.Distance? && result.total < minDistance {
        minDistance := result.total;
        minIndex := i;
      }
    }
    assert ds[..|validOutput|] == ds;
    if minDistance <= FaceMatchThreshold {
      foundMatch := true;
      logs := logs + [MatchVerdictLog(true, validatedImageList[minIndex])];
    } else {
      foundMatch := false;
      logs := logs + [MatchVerdictLog(false, "")];
    }
  }

  /** With mismatches skipped, a gallery that holds the live embedding
      itself yields a match at distance 0, no later than that entry and on
      an entry of the live embedding's length. */
  lemma CheckedSearchFindsExactEntry(validOutput: seq<seq<real>>, testOutput: seq<real>, k: int,
                                     minDistance: real, minIndex: int)
    requires 0 <= k < |validOutput| && validOutput[k] == testOutput
    requires IsFirstMinimum(CheckedGalleryDistances(validOutput, testOutput), minDistance, minIndex)
    ensures minDistance == 0.0 && 0 <= minIndex <= k
    ensures |validOutput[minIndex]| == |testOutput|
    ensures SumSquaredDiff(validOutput[minIndex], testOutput) == 0.0
  {
    var ds := CheckedGalleryDistances(validOutput, testOutput);
    DistanceToSelfIsZero(testOutput);
    assert ds[k] == 0.0 < NoMatchDistance;
    assert 0 <= minIndex < |ds|;
    assert ds[minIndex] == 0.0;
    assert |validOutput[minIndex]| == |testOutput|;
  }

  /** `handle_keys`: `False` (stop) when the low byte of the key code is
      `q` or `Q`, `True` (continue) otherwise. Python's `& 0xFF` on an int
      equals the non-negative remainder modulo 256, which Dafny's `%` is. */
  function HandleKeys(rawKey: int): bool
  {
    var asciiCode := rawKey % 256;
    !(asciiCode == 'q' as int || asciiCode == 'Q' as int)
  }

  /** `handle_keys` stops exactly on key codes whose low byte is 113 (`q`)
      or 81 (`Q`), whatever the higher bits. */
  lemma HandleKeysStopsOnlyOnQ(rawKey: int)
    ensures !HandleKeys(rawKey) <==> exists high: int :: rawKey == 256 * high + 113 || rawKey == 256 * high + 81
  {
    var high := rawKey / 256;
    assert rawKey == 256 * high + rawKey % 256;
    if exists h: int :: rawKey == 256 * h + 113 || rawKey == 256 * h + 81 {
      var h: int :| rawKey == 256 * h + 113 || rawKey == 256 * h + 81;
      assert rawKey % 256 == 113 || rawKey % 256 == 81;
    }
  }

  /** Index just past the last `/` of `p` (`p.rfind('/') + 1`). */
  function LastSlashEnd(p: string): (i: nat)
    ensures i <= |p|
    ensures 0 < i ==> p[i - 1] == '/'
    ensures forall j :: i <= j < |p| ==> p[j] != '/'
  {
    if |p| == 0 then 0
    else if p[|p| - 1] == '/' then |p|
    else LastSlashEnd(p[..|p| - 1])
  }

  predicate AllSlashes(s: string)
  {
    forall i :: 0 <= i < |s| ==> s[i] == '/'
  }

  function RStripSlashes(s: string): string
  {
    if |s| > 0 && s[|s| - 1] == '/' then RStripSlashes(s[..|s| - 1]) else s
  }

  /** `os.path.dirname` on a POSIX path. */
  function DirName(p: string): string
  {
    var head := p[..LastSlashEnd(p)];
    if head != [] && !AllSlashes(head) then RStripSlashes(head) else head
  }

  /** `os.path.basename` on a POSIX path. */
  function BaseName(p: string): string
  {
    p[LastSlashEnd(p)..]
  }

  /** `os.path.basename(os.path.dirname(image_path))`. */
  function UserLogin(imagePath: string): string
  {
    BaseName(DirName(imagePath))
  }

  lemma LastSlashEndOf(p: string, k: nat)
    requires 0 < k <= |p| && p[k - 1] == '/'
    requires forall j :: k <= j < |p| ==> p[j] != '/'
    ensures LastSlashEnd(p) == k
  {
  }

  /** For an enrolled image `<root>/<user>/<file>` (the glob
      pattern of the gallery matches only these), the derived login is `<user>`. */
  lemma UserLoginIsParentDirectory(root: string, user: string, file: string)
    requires user != [] && forall i :: 0 <= i < |user| ==> user[i] != '/'
    requires forall i :: 0 <= i < |file| ==> file[i] != '/'
    ensures UserLogin(root + "/" + user + "/" + file) == user
  {
    var p := root + "/" + user + "/" + file;
    var k := |root| + |user| + 2;
    LastSlashEndOf(p, k);
    var head := p[..k];
    assert head == root + "/" + user + "/";
    assert head[k - 2] == user[|user| - 1];
    var dir := root + "/" + user;
    assert head[..k - 1] == dir;
    assert !AllSlashes(head);
    assert RStripSlashes(head) == dir;
    LastSlashEndOf(dir, |root| + 1);
    assert dir[|root| + 1..] == user;
  }
}
