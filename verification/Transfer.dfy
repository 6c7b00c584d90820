/**
 * The transfer of one file: whether it is needed, what is asked of the source, what is
 * stored on the target side for the next run, and what is done after a failure.
 */
module Transfer {
  import opened Base
  import opened Objects
  import opened Matching
  import opened Locations

  /** An object as HEAD shows it, with its contents; absent headers are empty strings. */
  datatype Stored = Stored(
    content: seq<int>,
    contentType: string,
    lastModified: string,
    sourceEtag: string,
    sourceLastModified: string,
    expiresAt: Option<int>,
    symlink: Option<ObjectName>)

  type Contents = map<ObjectName, Stored>

  datatype Conditions = Conditions(ifNoneMatch: string, ifModifiedSince: string)

  datatype FileState = FileState(
    etag: string,
    lastModified: string,
    size: Option<nat>,
    expiry: Option<int>,
    skipTransfer: bool,
    contentType: string)

  datatype Answer = GetFailed | Got(state: FileState, body: seq<int>)

  datatype Put = PutOk | RateLimited | PutFailed(left: Option<Stored>)

  /** `Panics` if a successful upload has no size to report. */
  datatype Outcome = Returned(result: TransferResult, bytes: nat) | Panics

  const FAILED := Returned(Failed, 0)
  const SKIPPED := Returned(Skipped, 0)

  /**
   * `existing` is `FileExists`, `simplistic` the simplistic comparison, `delay` the
   * expiration, `minObjectSize` the segmenting.
   */
  datatype Job = Job(
    target: Location,
    matcher: Matcher,
    existing: set<ObjectName>,
    simplistic: bool,
    delay: Option<int>,
    minObjectSize: Option<nat>)

  /**
   * What the other sides do during the transfer; `parse` is `http.ParseTime`, `now` the time
   * that the target side notes.
   */
  datatype World = World(
    symlinks: bool,
    headFails: bool,
    get: (string, Conditions) -> Answer,
    put: Put,
    deleteFails: bool,
    parse: string -> Option<int>,
    now: string)

  // ----- the decision -----

  predicate IsImmutable(j: Job, f: FileSpec) {
    j.matcher.immutableFileRx.Some? && j.matcher.immutableFileRx.value(f.path)
  }

  /** The symlink target that remains, if the target side has symlinks and the job includes the path. */
  ghost function LinkOf(j: Job, f: FileSpec, w: World): string {
    if w.symlinks && f.symlinkTargetPath != "" && Admits(j.matcher, f.symlinkTargetPath, None) then f.symlinkTargetPath
    else ""
  }

  function ConditionsFor(j: Job, hdr: Option<Stored>): Conditions {
    if hdr.None? then Conditions("", "")
    else if j.simplistic then Conditions("", hdr.value.lastModified)
    else Conditions(hdr.value.sourceEtag, hdr.value.sourceLastModified)
  }

  /** `FileSpec.toTransferFormat` */
  function ToTransferFormat(c: Cached, cond: Conditions, parse: string -> Option<int>): Answer {
    var skip :=
      if cond.ifNoneMatch != "" && c.etag != "" then Some(cond.ifNoneMatch == c.etag)
      else if cond.ifModifiedSince != "" && c.lastModified != "" then
        if parse(cond.ifModifiedSince).None? || parse(c.lastModified).None? then None
        else Some(parse(cond.ifModifiedSince) == parse(c.lastModified))
      else Some(false);
    if skip.None? then GetFailed
    else Got(FileState(c.etag, c.lastModified, Some(|c.bytes|), None, skip.value, c.contentType), c.bytes)
  }

  function Ask(f: FileSpec, cond: Conditions, w: World): Answer {
    if f.contents.Some? then ToTransferFormat(f.contents.value, cond, w.parse)
    else w.get(if f.downloadPath != "" then f.downloadPath else f.path, cond)
  }

  /** What is stored about a file that has been uploaded. */
  function Upload(j: Job, state: FileState, body: seq<int>, w: World): Stored {
    Stored(body, state.contentType, w.now, state.etag, state.lastModified,
           if j.delay.Some? && state.expiry.Some? then Some(state.expiry.value + j.delay.value) else None, None)
  }

  predicate IsLarge(j: Job, size: Option<nat>) {
    j.minObjectSize.Some? && size.Some? && size.value > 0 && size.value >= j.minObjectSize.value
  }

  /** The target side after `cleanupFailedUpload`, if the upload has left something or nothing. */
  function CleanedUp(t: Contents, n: ObjectName, left: Option<Stored>, w: World): Contents {
    if !w.deleteFails then t - {n} else if left.Some? then t[n := left.value] else t - {n}
  }

  function Find(t: Contents, n: ObjectName): Option<Stored> {
    if n in t then Some(t[n]) else None
  }

  /** The target side and the outcome after an attempt to store an object. */
  function Try(t: Contents, n: ObjectName, stored: Stored, deletesAlways: bool, size: Option<nat>,
               w: World): (Contents, Outcome) {
    match w.put
    case PutOk => (t[n := stored], if size.Some? then Returned(Success, size.value) else Panics)
    case RateLimited => (if deletesAlways then CleanedUp(t, n, Find(t, n), w) else t, FAILED)
    case PutFailed(left) => (CleanedUp(t, n, left, w), FAILED)
  }

  function Link(t: Contents, n: ObjectName, to: ObjectName, w: World): (Contents, Outcome) {
    if n in t && t[n].symlink == Some(to) then (t, SKIPPED)
    else Try(t, n, Stored([], "", w.now, "", "", None, Some(to)), true, Some(0), w)
  }

  /** `File.PerformTransfer` */
  ghost function Perform(j: Job, f: FileSpec, w: World, t: Contents): (Contents, Outcome) {
    var n, link := j.target.ObjectAtPath(f.path), LinkOf(j, f, w);
    if IsImmutable(j, f) && n in j.existing then (t, SKIPPED)
    else if w.headFails then (t, FAILED)
    else if link != "" then Link(t, n, j.target.ObjectAtPath(link), w)
    else
      var answer := Ask(f, ConditionsFor(j, Find(t, n)), w);
      if answer.GetFailed? then (t, FAILED)
      else if answer.state.skipTransfer then (t, SKIPPED)
      else Try(t, n, Upload(j, answer.state, answer.body, w), IsLarge(j, answer.state.size), answer.state.size, w)
  }

  lemma Overwritten(t: Contents, n: ObjectName, s: Stored)
    ensures t[n := s] - {n} == t - {n} && (t - {n}) - {n} == t - {n}
    ensures n in t ==> t[n := t[n]] == t
    ensures n !in t ==> t - {n} == t
  {
  }

  // ----- the transfer as the source has it -----

  class Target {
    var objects: Contents

    /** `cleanupFailedUpload` */
    method CleanupFailedUpload(n: ObjectName, w: World)
      modifies this
      ensures objects == if w.deleteFails then old(objects) else old(objects) - {n}
    {
      if !w.deleteFails {
        objects := objects - {n};
      }
    }

    /** A PUT of whatever kind, without the cleanup: the error, if any. */
    method Store(n: ObjectName, stored: Stored, w: World) returns (ok: bool, rateLimited: bool)
      modifies this
      ensures ok == w.put.PutOk? && rateLimited == w.put.RateLimited?
      ensures objects == match w.put
        case PutOk => old(objects)[n := stored]
        case RateLimited => old(objects)
        case PutFailed(left) => if left.Some? then old(objects)[n := left.value] else old(objects) - {n}
    {
      ok, rateLimited := w.put.PutOk?, w.put.RateLimited?;
      if ok {
        objects := objects[n := stored];
      } else if !rateLimited {
        objects := if w.put.left.Some? then objects[n := w.put.left.value] else objects - {n};
      }
    }

    /** `uploadSymlink` */
    method UploadSymlink(n: ObjectName, previous: Option<Stored>, newTarget: ObjectName, w: World)
      returns (result: TransferResult)
      requires previous == Find(objects, n)
      modifies this
      ensures (objects, Returned(result, 0)) == Link(old(objects), n, newTarget, w)
    {
      if previous.Some? && previous.value.symlink == Some(newTarget) {
        return Skipped;
      }
      var stored := Stored([], "", w.now, "", "", None, Some(newTarget));
      var ok, _ := Store(n, stored, w);
      if ok {
        return Success;
      }
      Overwritten(old(objects), n, if w.put.PutFailed? && w.put.left.Some? then w.put.left.value else stored);
      CleanupFailedUpload(n, w);
      return Failed;
    }

    /** `uploadNormalObject` and `uploadLargeObject` */
    method UploadObject(n: ObjectName, stored: Stored, large: bool, ghost size: Option<nat>, w: World)
      returns (ok: bool)
      modifies this
      ensures ok == w.put.PutOk?
      ensures objects == Try(old(objects), n, stored, large, size, w).0
    {
      var rateLimited;
      ok, rateLimited := Store(n, stored, w);
      if !ok && !(rateLimited && !large) {
        Overwritten(old(objects), n, if w.put.PutFailed? && w.put.left.Some? then w.put.left.value else stored);
        CleanupFailedUpload(n, w);
      }
    }

    /** `File.PerformTransfer` */
    method PerformTransfer(j: Job, f: FileSpec, w: World) returns (outcome: Outcome)
      modifies this
      ensures (objects, outcome) == Perform(j, f, w, old(objects))
    {
      var n := j.target.ObjectAtPath(f.path);
      if j.matcher.immutableFileRx.Some? && j.matcher.immutableFileRx.value(f.path) {
        if n in j.existing {
          return SKIPPED;
        }
      }
      var link := f.symlinkTargetPath;
      if !w.symlinks {
        link := "";
      }
      if link != "" {
        var err := CheckRecursive(j.matcher, link, None);
        if err.Some? {
          link := "";
        }
      }
      if w.headFails {
        return FAILED;
      }
      var hdr := Find(objects, n);
      if link != "" {
        var result := UploadSymlink(n, hdr, j.target.ObjectAtPath(link), w);
        return Returned(result, 0);
      }
      var answer := Ask(f, ConditionsFor(j, hdr), w);
      if answer.GetFailed? {
        return FAILED;
      }
      if answer.state.skipTransfer {
        return SKIPPED;
      }
      var size := answer.state.size;
      var ok := UploadObject(n, Upload(j, answer.state, answer.body, w), IsLarge(j, size), size, w);
      if ok {
        return if size.Some? then Returned(Success, size.value) else Panics;
      }
      return FAILED;
    }
  }

  // ----- what the outcomes mean -----

  /** The source never says "not modified" to a request without conditions. */
  ghost predicate AnswersInFull(w: World) {
    forall p: string :: w.get(p, Conditions("", "")).Got? ==> !w.get(p, Conditions("", "")).state.skipTransfer
  }

  /** Only the object `n` has changed; success and skipping mean that it is there. */
  predicate Consistent(t: Contents, n: ObjectName, after: Contents, outcome: Outcome) {
    && after - {n} == t - {n}
    && (outcome == FAILED || outcome.Panics? || (n in after && outcome.result != Failed))
    && (outcome.Returned? && outcome.result.Skipped? ==> after == t && outcome.bytes == 0)
  }

  lemma TryIsConsistent(t: Contents, n: ObjectName, stored: Stored, deletesAlways: bool, size: Option<nat>, w: World)
    ensures Consistent(t, n, Try(t, n, stored, deletesAlways, size, w).0, Try(t, n, stored, deletesAlways, size, w).1)
  {
    Overwritten(t, n, stored);
    if n in t {
      Overwritten(t, n, t[n]);
    }
    if w.put.PutFailed? && w.put.left.Some? {
      Overwritten(t, n, w.put.left.value);
    }
  }

  lemma LinkIsConsistent(t: Contents, n: ObjectName, to: ObjectName, w: World)
    ensures Consistent(t, n, Link(t, n, to, w).0, Link(t, n, to, w).1)
  {
    TryIsConsistent(t, n, Stored([], "", w.now, "", "", None, Some(to)), true, Some(0), w);
  }

  /** Whatever happens, only the object of the file changes; success and skipping mean that it is there. */
  lemma OutcomeTells(j: Job, f: FileSpec, w: World, t: Contents)
    requires AnswersInFull(w) && forall n | n in j.existing :: n in t
    ensures Consistent(t, j.target.ObjectAtPath(f.path), Perform(j, f, w, t).0, Perform(j, f, w, t).1)
  {
    var n, link := j.target.ObjectAtPath(f.path), LinkOf(j, f, w);
    var cond := ConditionsFor(j, Find(t, n));
    var answer := Ask(f, cond, w);
    if link != "" {
      LinkIsConsistent(t, n, j.target.ObjectAtPath(link), w);
    } else if answer.Got? {
      var size := answer.state.size;
      TryIsConsistent(t, n, Upload(j, answer.state, answer.body, w), IsLarge(j, size), size, w);
      NothingFoundNothingSkipped(f, w, t, n, cond);
    }
  }

  lemma NothingFoundNothingSkipped(f: FileSpec, w: World, t: Contents, n: ObjectName, cond: Conditions)
    requires AnswersInFull(w) && (n !in t ==> cond == Conditions("", "")) && Ask(f, cond, w).Got?
    ensures Ask(f, cond, w).state.skipTransfer ==> n in t
  {
  }

  // ----- sources that work as RFC 7232 says -----

  datatype Resource = Resource(
    etag: string,
    lastModified: string,
    body: seq<int>,
    size: Option<nat>,
    expiry: Option<int>,
    contentType: string)

  /** Sections 3.2, 3.3 and 6 of RFC 7232: If-None-Match goes first, dates that cannot be read are ignored. */
  predicate NotModified(r: Resource, cond: Conditions, parse: string -> Option<int>) {
    if cond.ifNoneMatch != "" then cond.ifNoneMatch == r.etag
    else
      && cond.ifModifiedSince != "" && r.lastModified != ""
      && parse(cond.ifModifiedSince).Some? && parse(r.lastModified).Some?
      && parse(r.lastModified).value <= parse(cond.ifModifiedSince).value
  }

  predicate AnswersFor(answer: Answer, r: Resource, notModified: bool) {
    && answer.Got? && answer.state.skipTransfer == notModified
    && (!notModified ==>
          answer == Got(FileState(r.etag, r.lastModified, r.size, r.expiry, false, r.contentType), r.body))
  }

  /** A file is fetched from a source that has the resource, or has been cached with the properties of the resource. */
  ghost predicate Provides(w: World, f: FileSpec, r: Resource) {
    if f.contents.Some? then
      && f.contents.value == Cached(r.body, r.etag, r.lastModified, r.contentType)
      && r.size == Some(|r.body|) && r.expiry.None?
    else
      forall cond ::
        var answer := w.get(if f.downloadPath != "" then f.downloadPath else f.path, cond);
        AnswersFor(answer, r, NotModified(r, cond, w.parse))
  }

  lemma Asked(w: World, f: FileSpec, r: Resource, cond: Conditions)
    requires Provides(w, f, r) && f.contents.None?
    ensures AnswersFor(Ask(f, cond, w), r, NotModified(r, cond, w.parse))
  {
    var answer := w.get(if f.downloadPath != "" then f.downloadPath else f.path, cond);
    assert AnswersFor(answer, r, NotModified(r, cond, w.parse));
  }

  /** A regular file that is not exempt from comparisons. */
  ghost predicate Compared(j: Job, f: FileSpec, w: World) {
    LinkOf(j, f, w) == "" && !IsImmutable(j, f) && !w.headFails
  }

  /**
   * After a successful transfer the target side has the contents, the type and the
   * validators of the resource. It has an expiry exactly if the job enables that and the
   * resource has one, and then it is later by the delay of the job.
   */
  lemma SuccessStores(j: Job, f: FileSpec, w: World, t: Contents, r: Resource)
    requires LinkOf(j, f, w) == "" && Provides(w, f, r) && Perform(j, f, w, t).1.Returned?
    requires Perform(j, f, w, t).1.result.Success?
    ensures var (t', outcome), n := Perform(j, f, w, t), j.target.ObjectAtPath(f.path);
      && n in t' && t'[n].content == r.body && t'[n].contentType == r.contentType
      && t'[n].sourceEtag == r.etag && t'[n].sourceLastModified == r.lastModified
      && t'[n].lastModified == w.now && t'[n].symlink.None?
      && (t'[n].expiresAt.Some? <==> j.delay.Some? && r.expiry.Some?)
      && (t'[n].expiresAt.Some? ==> t'[n].expiresAt.value == r.expiry.value + j.delay.value)
      && r.size.Some? && outcome == Returned(Success, r.size.value)
  {
    if f.contents.None? {
      Asked(w, f, r, ConditionsFor(j, Find(t, j.target.ObjectAtPath(f.path))));
    }
  }

  /** Whether what was stored at the time `now` is taken for the current state of the resource. */
  predicate Recognized(j: Job, f: FileSpec, r: Resource, now: string, parse: string -> Option<int>) {
    if j.simplistic then
      && now != "" && r.lastModified != "" && parse(now).Some? && parse(r.lastModified).Some?
      && (if f.contents.Some? then parse(now) == parse(r.lastModified)
          else parse(r.lastModified).value <= parse(now).value)
    else r.etag != "" || (r.lastModified != "" && parse(r.lastModified).Some?)
  }

  /**
   * Run to run: after a successful transfer, a second one from an unchanged source
   * transfers nothing exactly if the resource has an Etag or a readable date. With the
   * simplistic comparison, the date must not be later than the first transfer; and a
   * cached file is only recognized if it is the very same date.
   */
  lemma SecondTransferSkips(j: Job, f: FileSpec, w: World, w2: World, t: Contents, r: Resource)
    requires Compared(j, f, w) && Compared(j, f, w2) && Provides(w, f, r) && Provides(w2, f, r) && w.parse == w2.parse
    requires Perform(j, f, w, t).1.Returned? && Perform(j, f, w, t).1.result.Success?
    ensures var t' := Perform(j, f, w, t).0;
      Perform(j, f, w2, t') == (t', SKIPPED) <==> Recognized(j, f, r, w.now, w.parse)
  {
    SuccessStores(j, f, w, t, r);
    var n, t' := j.target.ObjectAtPath(f.path), Perform(j, f, w, t).0;
    var cond := ConditionsFor(j, Find(t', n));
    assert cond == if j.simplistic then Conditions("", w.now) else Conditions(r.etag, r.lastModified);
    if f.contents.None? {
      Asked(w2, f, r, cond);
    }
    TryIsNoSkip(j, f, w2, t', n);
  }

  lemma TryIsNoSkip(j: Job, f: FileSpec, w: World, t: Contents, n: ObjectName)
    ensures forall stored, always, size :: Try(t, n, stored, always, size, w).1 != SKIPPED
  {
  }

  /** A symlink that has been stored is not stored again. */
  lemma SecondLinkSkips(j: Job, f: FileSpec, w: World, w2: World, t: Contents)
    requires LinkOf(j, f, w) == LinkOf(j, f, w2) != "" && !IsImmutable(j, f) && !w.headFails && !w2.headFails
    requires Perform(j, f, w, t).1.Returned? && Perform(j, f, w, t).1.result != Failed
    ensures var t' := Perform(j, f, w, t).0; Perform(j, f, w2, t') == (t', SKIPPED)
  {
  }

  /** If the stored Etag is compared, a file is skipped exactly if its Etag has not changed. */
  lemma SkippedIffSameEtag(j: Job, f: FileSpec, w: World, t: Contents, r: Resource)
    requires Compared(j, f, w) && Provides(w, f, r) && !j.simplistic && r.etag != ""
    requires Find(t, j.target.ObjectAtPath(f.path)).Some? && t[j.target.ObjectAtPath(f.path)].sourceEtag != ""
    ensures Perform(j, f, w, t) == (t, SKIPPED) <==> t[j.target.ObjectAtPath(f.path)].sourceEtag == r.etag
  {
    var n := j.target.ObjectAtPath(f.path);
    var cond := ConditionsFor(j, Find(t, n));
    if f.contents.None? {
      Asked(w, f, r, cond);
    }
    TryIsNoSkip(j, f, w, t, n);
  }

  /** If the source has no Etag any more, only a cached file may be skipped, for having the date that was stored. */
  lemma SkippedWithoutEtag(j: Job, f: FileSpec, w: World, t: Contents, r: Resource)
    requires Compared(j, f, w) && Provides(w, f, r) && !j.simplistic && r.etag == ""
    requires Find(t, j.target.ObjectAtPath(f.path)).Some? && t[j.target.ObjectAtPath(f.path)].sourceEtag != ""
    ensures var known := t[j.target.ObjectAtPath(f.path)].sourceLastModified;
      Perform(j, f, w, t) == (t, SKIPPED) <==>
        && f.contents.Some? && known != "" && r.lastModified != "" && w.parse(known).Some?
        && w.parse(known) == w.parse(r.lastModified)
  {
    var n := j.target.ObjectAtPath(f.path);
    if f.contents.None? {
      Asked(w, f, r, ConditionsFor(j, Find(t, n)));
    }
    TryIsNoSkip(j, f, w, t, n);
  }

  /**
   * If dates are compared instead, a file is skipped exactly if its date is not newer than
   * the one that is known on the target side (for a cached file: if it is the same); so a
   * source that has gone back to an older version is not followed.
   */
  lemma SkippedIffNotNewer(j: Job, f: FileSpec, w: World, t: Contents, r: Resource)
    requires Compared(j, f, w) && Provides(w, f, r) && Find(t, j.target.ObjectAtPath(f.path)).Some?
    requires j.simplistic || t[j.target.ObjectAtPath(f.path)].sourceEtag == ""
    ensures var stored := t[j.target.ObjectAtPath(f.path)];
      var known := if j.simplistic then stored.lastModified else stored.sourceLastModified;
      Perform(j, f, w, t) == (t, SKIPPED) <==>
        && known != "" && r.lastModified != "" && w.parse(known).Some? && w.parse(r.lastModified).Some?
        && (if f.contents.Some? then w.parse(known) == w.parse(r.lastModified)
            else w.parse(r.lastModified).value <= w.parse(known).value)
  {
    var n := j.target.ObjectAtPath(f.path);
    if f.contents.None? {
      Asked(w, f, r, ConditionsFor(j, Find(t, n)));
    }
    TryIsNoSkip(j, f, w, t, n);
  }

  // ----- the other ways out -----

  /** An immutable file in the snapshot is skipped, whatever either side does; otherwise a failed HEAD ends it. */
  lemma GuardsDecide(j: Job, f: FileSpec, w: World, t: Contents)
    ensures var n := j.target.ObjectAtPath(f.path);
      var fixed := j.matcher.immutableFileRx.Some? && j.matcher.immutableFileRx.value(f.path) && n in j.existing;
      && (fixed ==> Perform(j, f, w, t) == (t, SKIPPED))
      && (!fixed && w.headFails ==> Perform(j, f, w, t) == (t, FAILED))
  {
  }

  /**
   * A file is stored as a symlink exactly if it is one, the target side supports that, and
   * the rules of the job admit what it leads to; and then the symlink leads there.
   */
  lemma StoredAsLink(j: Job, f: FileSpec, w: World, t: Contents)
    requires Perform(j, f, w, t).1.Returned? && Perform(j, f, w, t).1.result.Success?
    ensures var (t', outcome), n := Perform(j, f, w, t), j.target.ObjectAtPath(f.path);
      var isLink := w.symlinks && f.symlinkTargetPath != "" && Admits(j.matcher, f.symlinkTargetPath, None);
      && n in t'
      && t'[n].symlink == (if isLink then Some(j.target.ObjectAtPath(f.symlinkTargetPath)) else None)
      && (isLink ==> outcome == Returned(Success, 0) && t'[n].content == [] && t'[n].expiresAt.None?)
  {
  }

  /** Unless it is skipped, a file from a source that has it is uploaded, and the upload decides. */
  lemma UploadDecides(j: Job, f: FileSpec, w: World, t: Contents, r: Resource)
    requires Compared(j, f, w) && Provides(w, f, r) && f.contents.None? && Perform(j, f, w, t) != (t, SKIPPED)
    ensures var (t', outcome), n := Perform(j, f, w, t), j.target.ObjectAtPath(f.path);
      match w.put
      case PutOk => n in t' && outcome == if r.size.Some? then Returned(Success, r.size.value) else Panics
      case RateLimited =>
        var large := j.minObjectSize.Some? && r.size.Some? && 0 < r.size.value && j.minObjectSize.value <= r.size.value;
        outcome == FAILED && t' == if large && !w.deleteFails then t - {n} else t
      case PutFailed(left) =>
        outcome == FAILED && t' == if w.deleteFails && left.Some? then t[n := left.value] else t - {n}
  {
    var n := j.target.ObjectAtPath(f.path);
    Asked(w, f, r, ConditionsFor(j, Find(t, n)));
    if n in t {
      Overwritten(t, n, t[n]);
    } else {
      assert t - {n} == t;
    }
  }

  /** A symlink that is not yet there is stored, and whatever a failure leaves is removed if that is possible. */
  lemma LinkDecides(j: Job, f: FileSpec, w: World, t: Contents)
    requires LinkOf(j, f, w) != "" && !IsImmutable(j, f) && !w.headFails && Perform(j, f, w, t) != (t, SKIPPED)
    ensures var (t', outcome), n := Perform(j, f, w, t), j.target.ObjectAtPath(f.path);
      match w.put
      case PutOk => outcome == Returned(Success, 0)
      case RateLimited => outcome == FAILED && t' == if w.deleteFails then t else t - {n}
      case PutFailed(left) =>
        outcome == FAILED && t' == if w.deleteFails && left.Some? then t[n := left.value] else t - {n}
  {
    var n := j.target.ObjectAtPath(f.path);
    if n in t {
      Overwritten(t, n, t[n]);
    } else {
      assert t - {n} == t;
    }
  }

  /** A cached file fails before the upload exactly if its date is compared and one of the dates cannot be read. */
  lemma UnreadableDateFails(j: Job, f: FileSpec, w: World, t: Contents)
    requires Compared(j, f, w) && f.contents.Some? && w.put.PutOk?
    ensures var n, cached := j.target.ObjectAtPath(f.path), f.contents.value;
      Perform(j, f, w, t) == (t, FAILED) <==>
        && n in t && (j.simplistic || t[n].sourceEtag == "" || cached.etag == "")
        && var known := if j.simplistic then t[n].lastModified else t[n].sourceLastModified;
        && known != "" && cached.lastModified != ""
        && (w.parse(known).None? || w.parse(cached.lastModified).None?)
  {
  }

  /** The transfer crashes exactly if the upload succeeds and the size is unknown. */
  lemma PanicsIffSizeUnknown(j: Job, f: FileSpec, w: World, t: Contents)
    ensures Perform(j, f, w, t).1.Panics? <==>
      var n := j.target.ObjectAtPath(f.path);
      var answer := Ask(f, ConditionsFor(j, Find(t, n)), w);
      && !(IsImmutable(j, f) && n in j.existing) && !w.headFails && LinkOf(j, f, w) == ""
      && answer.Got? && !answer.state.skipTransfer && answer.state.size.None? && w.put.PutOk?
  {
  }
}
