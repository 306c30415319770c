/** The request-path splitter and the URL forms it has to invert
    (crates/quill-registry/src/routes.rs, `split` and the `Location` headers).

    Paths are the text after `/v2/`. A repository name is here the raw text of
    the URL: it may hold any number of segments, including `blobs`, `manifests`
    and `uploads`. */
module RoutePaths {

  import opened Base
  import opened Digests

  datatype Action =
    | Blob(digest: string)
    | Manifest(reference: string)
    | TagsList
    | UploadInit
    | UploadSession(session: string)
    | Unknown

  datatype Target = Target(repo: string, action: Action)

  const BLOBS := "/blobs/"
  const UPLOADS := "/blobs/uploads/"
  const UPLOADS_BARE := "/blobs/uploads"
  const MANIFESTS := "/manifests/"
  const TAGS_LIST := "/tags/list"

  predicate EndsWith(s: string, suffix: string) {
    |suffix| <= |s| && s[|s| - |suffix|..] == suffix
  }

  function StripSuffix(s: string, suffix: string): (r: Option<string>)
    ensures r.Some? <==> EndsWith(s, suffix)
    ensures r.Some? ==> s == r.value + suffix
  {
    if EndsWith(s, suffix) then Some(s[..|s| - |suffix|]) else None
  }

  predicate OccursAt(s: string, pat: string, i: nat) {
    i + |pat| <= |s| && s[i..i + |pat|] == pat
  }

  /** The last occurrence that starts before `bound`. */
  function LastOccurrence(s: string, pat: string, bound: nat): (r: Option<nat>)
    ensures r.Some? ==> r.value < bound && OccursAt(s, pat, r.value)
    ensures forall i: nat :: i < bound && OccursAt(s, pat, i) ==> r.Some? && i <= r.value
  {
    if bound == 0 then None
    else if OccursAt(s, pat, bound - 1) then Some(bound - 1)
    else LastOccurrence(s, pat, bound - 1)
  }

  /** Splits at the last occurrence of `pat`, as `str::rsplit_once` does. */
  function RSplitOnce(s: string, pat: string): (r: Option<(string, string)>)
    ensures r.Some? ==> s == r.value.0 + pat + r.value.1
  {
    match LastOccurrence(s, pat, |s| + 1)
    case None => None
    case Some(i) => Some((s[..i], s[i + |pat|..]))
  }

  predicate Segment(s: string) {
    s != [] && '/' !in s
  }

  /** `split` (routes.rs:51-80). The source returns `Some` on every path. */
  function Split(rest: string): Target {
    var init := StripSuffix(rest, UPLOADS);
    if init.Some? then Target(init.value, UploadInit) else
    var bare := StripSuffix(rest, UPLOADS_BARE);
    if bare.Some? then Target(bare.value, UploadInit) else
    var session := RSplitOnce(rest, UPLOADS);
    if session.Some? && Segment(session.value.1) then
      Target(session.value.0, UploadSession(session.value.1)) else
    var blob := RSplitOnce(rest, BLOBS);
    if blob.Some? && Segment(blob.value.1) then
      Target(blob.value.0, Blob(blob.value.1)) else
    var manifest := RSplitOnce(rest, MANIFESTS);
    if manifest.Some? && Segment(manifest.value.1) then
      Target(manifest.value.0, Manifest(manifest.value.1)) else
    var tags := StripSuffix(rest, TAGS_LIST);
    if tags.Some? then Target(tags.value, TagsList) else
    Target("", Unknown)
  }

  /** The path of a target, as the server writes it into `Location` headers
      (routes.rs:556, 592, 638, 725) and as clients form it. */
  function Print(t: Target): string
    requires t.action != Unknown
  {
    match t.action
    case Blob(digest) => t.repo + BLOBS + digest
    case Manifest(reference) => t.repo + MANIFESTS + reference
    case TagsList => t.repo + TAGS_LIST
    case UploadInit => t.repo + UPLOADS
    case UploadSession(session) => t.repo + UPLOADS + session
  }

  /** Targets whose printed form is meant to be read back. */
  predicate Printable(t: Target) {
    match t.action
    case Blob(digest) => Segment(digest) && digest != "uploads"
    case Manifest(reference) => Segment(reference)
    case UploadSession(session) => Segment(session)
    case TagsList => true
    case UploadInit => true
    case Unknown => false
  }

  lemma SlashesEnd(pre: string, seg: string)
    requires EndsWith(pre, "/") && Segment(seg)
    ensures |pre| > 0 && (pre + seg)[|pre| - 1] == '/'
    ensures forall i :: |pre| <= i < |pre + seg| ==> (pre + seg)[i] != '/'
  {
    forall i | |pre| <= i < |pre + seg| ensures (pre + seg)[i] != '/' {
      assert (pre + seg)[i] == seg[i - |pre|] && seg[i - |pre|] in seg;
    }
  }

  /** What `rsplit_once` does to a path cut just after one of its slashes: the
      part after the split is a single segment exactly when the pattern sits
      right before the last segment. */
  lemma SplitBeforeLastSegment(pre: string, seg: string, pat: string)
    requires pat != [] && pat[|pat| - 1] == '/'
    requires EndsWith(pre, "/") && Segment(seg)
    ensures var r := RSplitOnce(pre + seg, pat);
            if EndsWith(pre, pat) then r == Some((pre[..|pre| - |pat|], seg))
            else r.None? || !Segment(r.value.1)
  {
    var s := pre + seg;
    var at := LastOccurrence(s, pat, |s| + 1);
    SlashesEnd(pre, seg);
    if at.Some? {
      var end := at.value + |pat|;
      assert s[at.value..end][|pat| - 1] == s[end - 1];
      if end < |pre| {
        assert s[end..][|pre| - 1 - end] == s[|pre| - 1];
      } else {
        assert s[at.value..end] == pre[at.value..];
      }
    }
    if EndsWith(pre, pat) {
      var i := |pre| - |pat|;
      assert s[i..i + |pat|] == pre[i..];
      assert OccursAt(s, pat, i);
      assert s[..i] == pre[..i] && s[|pre|..] == seg;
    }
  }

  /** A suffix of `a + b` no longer than `b` is a suffix of `b`. */
  lemma SuffixOfTail(a: string, b: string, suffix: string)
    requires |suffix| <= |b|
    ensures EndsWith(a + b, suffix) <==> EndsWith(b, suffix)
  {
    assert (a + b)[|a + b| - |suffix|..] == b[|b| - |suffix|..];
  }

  lemma NotSuffixByChar(s: string, suffix: string, k: nat)
    requires k < |suffix| && k < |s| && s[|s| - 1 - k] != suffix[|suffix| - 1 - k]
    ensures !EndsWith(s, suffix)
  {
    if |suffix| <= |s| {
      assert s[|s| - |suffix|..][|suffix| - 1 - k] == s[|s| - 1 - k];
    }
  }

  /** A suffix that itself ends in a segment is matched segment by segment. */
  lemma SuffixSegments(pre: string, seg: string, left: string, right: string)
    requires EndsWith(pre, "/") && Segment(seg)
    requires EndsWith(left, "/") && Segment(right)
    requires EndsWith(pre + seg, left + right)
    ensures seg == right && EndsWith(pre, left)
  {
    var s, suffix := pre + seg, left + right;
    var from := |s| - |suffix|;
    SlashesEnd(pre, seg);
    SlashesEnd(left, right);
    assert forall i :: 0 <= i < |suffix| ==> s[from..][i] == s[from + i];
    assert from + |left| == |pre|;
    assert s[from..][..|left|] == pre[from..] && s[from..][|left|..] == seg;
    assert suffix[..|left|] == left && suffix[|left|..] == right;
  }

  lemma LastSegmentRulesOutInit(pre: string, seg: string)
    requires EndsWith(pre, "/") && Segment(seg)
    ensures !EndsWith(pre + seg, UPLOADS)
    ensures EndsWith(pre + seg, UPLOADS_BARE) ==> seg == "uploads" && EndsWith(pre, BLOBS)
  {
    SlashesEnd(pre, seg);
    NotSuffixByChar(pre + seg, UPLOADS, 0);
    assert UPLOADS_BARE == BLOBS + "uploads";
    if EndsWith(pre + seg, UPLOADS_BARE) {
      SuffixSegments(pre, seg, BLOBS, "uploads");
    }
  }

  /** The marker that precedes the last segment of a path is unambiguous. */
  lemma MarkerIsUnique(repo: string, mid: string, pat: string)
    requires mid in {BLOBS, MANIFESTS, UPLOADS, "/tags/"} && pat in {BLOBS, MANIFESTS, UPLOADS}
    ensures EndsWith(repo + mid, "/")
    ensures EndsWith(repo + mid, pat) <==> mid == pat
  {
    var pre := repo + mid;
    SuffixOfTail(repo, mid, "/");
    SuffixOfTail(repo, mid, mid);
    assert pre[|pre| - 3] == mid[|mid| - 3];
    if mid != pat { NotSuffixByChar(pre, pat, 2); }
  }

  lemma SplitAtMarker(repo: string, mid: string, seg: string, pat: string)
    requires mid in {BLOBS, MANIFESTS, UPLOADS, "/tags/"} && Segment(seg) && pat in {BLOBS, MANIFESTS, UPLOADS}
    ensures var r := RSplitOnce(repo + mid + seg, pat);
            if mid == pat then r == Some((repo, seg)) else r.None? || !Segment(r.value.1)
  {
    var pre := repo + mid;
    MarkerIsUnique(repo, mid, pat);
    SplitBeforeLastSegment(pre, seg, pat);
    assert pre[..|pre| - |mid|] == repo;
  }

  /** Splitting at the last `pat` gives `expected`, or, for none, no single segment. */
  predicate SplitsAs(rest: string, pat: string, expected: Option<(string, string)>) {
    var r := RSplitOnce(rest, pat);
    if expected.Some? then r == expected else r.None? || !Segment(r.value.1)
  }

  /** Everything `split` asks of a path, in order, up to the tags list. */
  lemma SplitQuestions(repo: string, mid: string, seg: string)
    requires mid in {BLOBS, MANIFESTS, UPLOADS, "/tags/"} && Segment(seg)
    ensures var rest := repo + mid + seg;
            && StripSuffix(rest, UPLOADS).None?
            && (StripSuffix(rest, UPLOADS_BARE).None? || (mid == BLOBS && seg == "uploads"))
            && SplitsAs(rest, UPLOADS, if mid == UPLOADS then Some((repo, seg)) else None)
            && SplitsAs(rest, BLOBS, if mid == BLOBS then Some((repo, seg)) else None)
            && SplitsAs(rest, MANIFESTS, if mid == MANIFESTS then Some((repo, seg)) else None)
  {
    MarkerIsUnique(repo, mid, BLOBS);
    LastSegmentRulesOutInit(repo + mid, seg);
    SplitAtMarker(repo, mid, seg, UPLOADS);
    SplitAtMarker(repo, mid, seg, BLOBS);
    SplitAtMarker(repo, mid, seg, MANIFESTS);
  }

  lemma SplitOfTagsList(repo: string)
    ensures Split(repo + TAGS_LIST) == Target(repo, TagsList)
  {
    var rest := repo + TAGS_LIST;
    assert rest == repo + "/tags/" + "list";
    SplitQuestions(repo, "/tags/", "list");
    assert rest[|repo|..] == TAGS_LIST && rest[..|repo|] == repo;
  }

  /** Splitting inverts printing, whatever segments the repository name holds. */
  lemma SplitPrint(t: Target)
    requires Printable(t)
    ensures Split(Print(t)) == t
  {
    match t.action
    case Blob(digest) => SplitQuestions(t.repo, BLOBS, digest);
    case Manifest(reference) => SplitQuestions(t.repo, MANIFESTS, reference);
    case UploadSession(session) => SplitQuestions(t.repo, UPLOADS, session);
    case TagsList => SplitOfTagsList(t.repo);
    case UploadInit =>
      assert (t.repo + UPLOADS)[|t.repo|..] == UPLOADS;
      assert (t.repo + UPLOADS)[..|t.repo|] == t.repo;
  }

  /** The one blob reference that does not come back: its path is taken for the
      start of an upload, for every repository. */
  lemma UploadsReferenceIsNotABlob(repo: string)
    ensures Split(Print(Target(repo, Blob("uploads")))) == Target(repo, UploadInit)
  {
    var s := repo + BLOBS + "uploads";
    assert s == repo + UPLOADS_BARE;
    assert s[|s| - 1] == 's';
    NotSuffixByChar(s, UPLOADS, 0);
    assert s[|repo|..] == UPLOADS_BARE && s[..|repo|] == repo;
  }

  /** Reading inverts the other way: what was recognised reprints as the input,
      up to the optional trailing slash of an upload start. */
  lemma PrintSplit(rest: string)
    requires Split(rest).action != Unknown
    ensures Print(Split(rest)) == rest ||
            (Split(rest).action == UploadInit && Print(Split(rest)) == rest + "/")
    ensures Split(rest).action != UploadInit ==> Printable(Split(rest))
  {
    var t := Split(rest);
    if t.action == UploadInit && !EndsWith(rest, UPLOADS) {
      assert rest + "/" == t.repo + UPLOADS_BARE + "/" == t.repo + UPLOADS;
    }
    if t.action.Blob? && t.action.digest == "uploads" {
      UploadsReferenceIsNotABlob(t.repo);
    }
  }

  /** Consequently no two resources of the registry share a URL. */
  lemma PrintInjective(a: Target, b: Target)
    requires Printable(a) && Printable(b) && Print(a) == Print(b)
    ensures a == b
  {
    SplitPrint(a);
    SplitPrint(b);
  }

  /** The `Location` of a stored blob always leads back to that blob. */
  lemma BlobLocationLeadsBack(repo: string, d: Digest)
    ensures Split(Print(Target(repo, Blob(Display(d))))) == Target(repo, Blob(Display(d)))
    ensures Parse(Split(Print(Target(repo, Blob(Display(d))))).action.digest) == Some(d)
  {
    ParseDisplay(d);
    assert Display(d) == PREFIX + d.hex;
    assert forall i :: 7 <= i < |Display(d)| ==> LowerHexDigit(Display(d)[i]);
    assert forall i :: 0 <= i < 7 ==> Display(d)[i] == PREFIX[i];
    SplitPrint(Target(repo, Blob(Display(d))));
  }

}
