/** The `/process` endpoint of speech_backend.py: key and path validation,
    resolution of the key from the request options, the ordered rejections
    400 / 404 / 415 / 413 / 422, and the per-file loop over the objects under
    a prefix. Object storage is replaced by the `Store` oracle below. */
module SpeechBackend {
  import opened Wrappers
  import opened Text

  /** The settings read from the environment at start-up. `allowedExts` is
      ALLOWED_EXTS after its entries were stripped and lower-cased. */
  datatype Config = Config(defaultBucket: string, maxBytesInMemory: int,
                           allowedExts: set<string>, usersBasePrefix: string,
                           recordSubpath: string)

  /** One entry of an object listing; `lastModified` is an epoch timestamp. */
  datatype S3Object = S3Object(key: string, size: nat, lastModified: Option<int>)

  /** `head_object`: the object's ContentLength and ContentType. */
  datatype Head = Head(size: nat, contentType: Option<string>)

  /** What `SpeechProcessor.process_s3_frames` reports on success. */
  datatype ConcatStats = ConcatStats(downloadMs: nat, fileCount: nat, totalBytes: nat)

  /** The bucket as the endpoint sees it. `head` yields the HTTP status of a
      failed HEAD request; `listing` is every object under a prefix, page after
      page; `commonPrefixes` is the one-level listing under the users' base
      prefix; `process` and `processFrames` stand for the speech analyser,
      returning the download time or the text of the exception it raised. */
  datatype Store = Store(head: string -> Result<Head, int>,
                         listing: string -> seq<S3Object>,
                         commonPrefixes: seq<string>,
                         process: string -> Result<nat, string>,
                         processFrames: string -> Result<ConcatStats, string>)

  /** The request options the endpoint reads, with their defaults applied. */
  datatype Options = Options(userId: Option<string>, user: string,
                             perFile: bool, minSizeBytes: int)

  datatype Request = Request(bucket: Option<string>, key: Option<string>, options: Options)

  /** An HTTP error raised by the endpoint: status and `detail.code`. */
  datatype Rejection = Rejection(status: nat, code: string)

  datatype FrameError = TooSmall(size: nat, minSize: int)
                      | TooLarge(size: nat, maxSize: int)
                      | Failed(reason: string)

  datatype FrameEntry = FrameEntry(key: string, sizeBytes: nat, downloadMs: nat)
  datatype ErrorEntry = ErrorEntry(key: string, error: FrameError)

  /** The response of `/process`, or the error it raised. In `PerFileDone`,
      `errorsKey` is the optional "errors" key of the result. */
  datatype Outcome =
    | Rejected(status: nat, code: string, errors: seq<ErrorEntry>)
    | PerFileDone(key: string, frames: seq<FrameEntry>, errorsKey: Option<seq<ErrorEntry>>,
                  sizeBytes: nat, framesCount: nat, sumDownloadMs: nat,
                  skippedOrFailed: nat, minSizeBytes: int)
    | ConcatDone(key: string, sizeBytes: nat, framesCount: nat, downloadMs: nat)
    | SingleDone(key: string, contentType: Option<string>, sizeBytes: nat, downloadMs: nat)

  /** Python truthiness of an optional string. */
  predicate Truthy(s: Option<string>) {
    s.Some? && s.value != ""
  }

  // ---------------------------------------------------------------- keys

  /** looks_like_prefix: a non-empty key that ends with "/" or whose last
      "/"-separated segment has no ".". */
  function LooksLikePrefix(key: string): (b: bool)
    ensures b ==> key != ""
    ensures EndsWith(key, "/") ==> b
  {
    if key == "" then false
    else if EndsWith(key, "/") then true
    else '.' !in LastSegment(key)
  }

  /** A key looks like a prefix exactly when it is non-empty and every "." in
      it is followed, somewhere later, by a "/". */
  lemma LooksLikePrefixIff(key: string)
    ensures LooksLikePrefix(key) <==> (key != "" &&
      forall i :: 0 <= i < |key| && key[i] == '.' ==> exists j :: i < j < |key| && key[j] == '/')
  {
    if key != "" && !EndsWith(key, "/") {
      var tail := LastSegment(key);
      var start := |key| - |tail|;
      assert key[start..] == tail;
      if LooksLikePrefix(key) {
        forall i | 0 <= i < |key| && key[i] == '.'
          ensures exists j :: i < j < |key| && key[j] == '/'
        {
          if i >= start {
            assert false;
          }
          assert key[start - 1] == '/';
        }
      } else {
        var i :| 0 <= i < |tail| && tail[i] == '.';
        assert key[start + i] == '.';
        forall j | start + i < j < |key|
          ensures key[j] != '/'
        {
          assert key[j] == tail[j - start];
        }
      }
    } else if key != "" {
      assert key[|key| - 1] == key[|key| - 1..][0] == '/';
    }
  }

  /** Lower-casing touches neither "/" nor ".", so it never changes whether a
      key looks like a prefix. */
  lemma LowerKeepsPrefixShape(key: string)
    ensures LooksLikePrefix(Lower(key)) == LooksLikePrefix(key)
  {
    var k := Lower(key);
    if key != [] {
      var n := |key| - 1;
      assert EndsWith(k, "/") <==> EndsWith(key, "/") by {
        assert k[n..] == [LowerChar(key[n])];
        assert key[n..] == [key[n]];
      }
      LowerLastSegment(key);
      var t := LastSegment(key);
      assert ('.' in Lower(t)) <==> ('.' in t) by {
        assert forall i :: 0 <= i < |t| ==> (Lower(t)[i] == '.' <==> t[i] == '.');
      }
    }
  }

  /** The lower-cased key ends with one of the allowed extensions. */
  predicate HasAllowedExt(key: string, exts: set<string>) {
    exists e | e in exts :: EndsWith(Lower(key), e)
  }

  /** is_allowed_key: a prefix-like key, or one whose lower-cased form ends
      with an allowed extension. */
  function IsAllowedKey(key: string, exts: set<string>): (b: bool)
    ensures b <==> LooksLikePrefix(key) || HasAllowedExt(key, exts)
  {
    LowerKeepsPrefixShape(key);
    var k := Lower(key);
    if LooksLikePrefix(k) then true else exists e | e in exts :: EndsWith(k, e)
  }

  /** Keys that differ only in letter case are accepted or refused together. */
  lemma AllowedKeyIgnoresCase(a: string, b: string, exts: set<string>)
    requires Lower(a) == Lower(b)
    ensures IsAllowedKey(a, exts) == IsAllowedKey(b, exts)
  {
    LowerKeepsPrefixShape(a);
    LowerKeepsPrefixShape(b);
  }

  /** ProcessRequest.check_key: an empty or missing key passes unchanged; a key
      starting with "/" or containing ".." is refused; any other key passes
      unchanged. */
  function CheckKey(v: Option<string>): (r: Result<Option<string>, string>)
    ensures r.Ok? ==> r.value == v
    ensures r.Err? <==> (Truthy(v) &&
      (v.value[0] == '/' || exists i :: 0 <= i < |v.value| - 1 && v.value[i] == '.' && v.value[i + 1] == '.'))
  {
    if !Truthy(v) then Ok(v)
    else if StartsWith(v.value, "/") || Contains(v.value, "..") then
      assert Contains(v.value, "..") ==> exists i :: 0 <= i < |v.value| - 1 && v.value[i] == '.' && v.value[i + 1] == '.' by {
        if Contains(v.value, "..") {
          var i :| 0 <= i <= |v.value| - 2 && OccursAt(v.value, "..", i);
          assert v.value[i..i + 2] == "..";
          assert v.value[i] == v.value[i..i + 2][0] == '.';
          assert v.value[i + 1] == v.value[i..i + 2][1] == '.';
        }
      }
      Err("Invalid S3 key")
    else
      assert forall i :: 0 <= i < |v.value| - 1 && v.value[i] == '.' && v.value[i + 1] == '.' ==> OccursAt(v.value, "..", i) by {
        forall i | 0 <= i < |v.value| - 1 && v.value[i] == '.' && v.value[i + 1] == '.'
          ensures OccursAt(v.value, "..", i)
        {
          assert v.value[i..i + 2] == [v.value[i], v.value[i + 1]];
        }
      }
      Ok(v)
  }

  /** `p if p.endswith("/") else p + "/"`. */
  function WithSlash(p: string): (r: string)
    ensures EndsWith(r, "/")
    ensures StartsWith(r, p)
    ensures EndsWith(p, "/") ==> r == p
    ensures !EndsWith(p, "/") ==> r == p + "/"
  {
    if EndsWith(p, "/") then p else p + "/"
  }

  /** build_user_prefix: base + user_id + "/" + sub, with "/" added to base and
      sub only when they lack it. */
  function BuildUserPrefix(cfg: Config, userId: string): (r: string)
    ensures r == WithSlash(cfg.usersBasePrefix) + userId + "/" + WithSlash(cfg.recordSubpath)
    ensures StartsWith(r, cfg.usersBasePrefix) && EndsWith(r, "/")
    ensures LooksLikePrefix(r)
  {
    var base := WithSlash(cfg.usersBasePrefix);
    var sub := WithSlash(cfg.recordSubpath);
    PrefixOfConcat(cfg.usersBasePrefix, base, userId);
    PrefixOfConcat(cfg.usersBasePrefix, base + userId, "/");
    PrefixOfConcat(cfg.usersBasePrefix, base + userId + "/", sub);
    SuffixOfConcat(base + userId + "/", sub);
    base + userId + "/" + sub
  }

  /** A prefix of `a` is a prefix of `a + b`. */
  lemma PrefixOfConcat(p: string, a: string, b: string)
    requires StartsWith(a, p)
    ensures StartsWith(a + b, p)
  {
    assert (a + b)[..|p|] == a[..|p|];
  }

  /** A concatenation ending in a "/"-terminated string ends with "/". */
  lemma SuffixOfConcat(a: string, b: string)
    requires EndsWith(b, "/")
    ensures EndsWith(a + b, "/")
  {
    assert (a + b)[|a + b| - 1] == b[|b| - 1];
    assert (a + b)[|a + b| - 1..] == [(a + b)[|a + b| - 1]];
    assert b[|b| - 1..] == [b[|b| - 1]];
  }

  /** `uprefix.removeprefix(base).strip("/")`: the user id of a common prefix. */
  function UserIdOf(uprefix: string, base: string): string {
    StripChar(RemovePrefix(uprefix, base), '/')
  }

  /** The user id comes back out of the common prefix of that user's folder:
      `users/<id>/` yields `<id>` for any id that neither starts nor ends with "/". */
  lemma UserIdRoundTrip(base: string, userId: string)
    requires userId == [] || (userId[0] != '/' && userId[|userId| - 1] != '/')
    ensures UserIdOf(WithSlash(base) + userId + "/", WithSlash(base)) == userId
  {
    var b := WithSlash(base);
    assert b + userId + "/" == b + (userId + "/");
    RemoveOwnPrefix(b, userId + "/");
    StripOneSlash(userId);
  }

  lemma RemoveOwnPrefix(p: string, rest: string)
    ensures RemovePrefix(p + rest, p) == rest
  {
    assert (p + rest)[..|p|] == p;
    assert (p + rest)[|p|..] == rest;
  }

  /** Stripping "/" from `id + "/"` leaves `id` when `id` has no "/" at either end. */
  lemma StripOneSlash(id: string)
    requires id == [] || (id[0] != '/' && id[|id| - 1] != '/')
    ensures StripChar(id + "/", '/') == id
  {
    var t := id + "/";
    assert t[..|t| - 1] == id;
    assert RStripChar(t, '/') == RStripChar(id, '/');
  }

  // ------------------------------------------------------------- listings

  /** The objects of a listing that are not folder markers (keys ending in "/"). */
  function Files(objs: seq<S3Object>): (r: seq<S3Object>)
    ensures |r| <= |objs|
    ensures forall j :: 0 <= j < |r| ==> !EndsWith(r[j].key, "/")
  {
    if objs == [] then []
    else
      var last := objs[|objs| - 1];
      Files(objs[..|objs| - 1]) + (if EndsWith(last.key, "/") then [] else [last])
  }

  /** Only objects of the listing come out, and never a folder marker. */
  lemma {:induction false} FilesAreFiles(objs: seq<S3Object>)
    ensures forall o :: o in Files(objs) ==> o in objs && !EndsWith(o.key, "/")
  {
    if objs != [] {
      FilesAreFiles(objs[..|objs| - 1]);
      assert forall o :: o in objs[..|objs| - 1] ==> o in objs;
    }
  }

  /** The files of a prefix of a listing come first among the files of the listing. */
  lemma {:induction false} FilesOfPrefix(objs: seq<S3Object>, i: nat)
    requires i <= |objs|
    ensures |Files(objs[..i])| <= |Files(objs)|
    ensures Files(objs[..i]) == Files(objs)[..|Files(objs[..i])|]
    decreases |objs| - i
  {
    if i < |objs| {
      FilesOfPrefix(objs, i + 1);
      var longer := Files(objs[..i + 1]);
      assert objs[..i + 1][..i] == objs[..i];
      assert Files(objs[..i]) == longer[..|Files(objs[..i])|];
    } else {
      assert objs[..i] == objs;
    }
  }

  lemma FilesStep(objs: seq<S3Object>, i: nat)
    requires i < |objs|
    ensures Files(objs[..i + 1]) == Files(objs[..i]) + (if EndsWith(objs[i].key, "/") then [] else [objs[i]])
  {
    assert objs[..i + 1][..i] == objs[..i];
  }

  /** How many objects `list_objects(..., limit)` yields out of `n` files:
      `if limit and count >= limit` means a missing or zero limit is no limit,
      and a negative one stops after the first object. */
  function ListCap(limit: Option<int>, n: nat): (c: nat)
    ensures c <= n
  {
    if limit.None? || limit.value == 0 then n
    else if limit.value < 1 then (if n < 1 then n else 1)
    else if n < limit.value then n else limit.value
  }

  /** Once the files seen reach a non-zero limit, they are exactly the capped listing. */
  lemma LimitReached(objs: seq<S3Object>, i: nat, limit: Option<int>)
    requires i <= |objs| && limit.Some? && limit.value != 0
    requires |Files(objs[..i])| == (if limit.value < 1 then 1 else limit.value)
    ensures Files(objs[..i]) == Files(objs)[..ListCap(limit, |Files(objs)|)]
  {
    FilesOfPrefix(objs, i);
  }

  /** list_objects: the non-folder objects of a listing in order, up to the limit. */
  method ListObjects(objs: seq<S3Object>, limit: Option<int>) returns (out: seq<S3Object>)
    ensures out == Files(objs)[..ListCap(limit, |Files(objs)|)]
    ensures limit.Some? && limit.value > 0 ==> |out| <= limit.value
  {
    out := [];
    var count := 0;
    var i := 0;
    while i < |objs|
      invariant 0 <= i <= |objs|
      invariant out == Files(objs[..i])
      invariant count == |out|
      invariant limit.Some? && limit.value != 0 ==> count < (if limit.value < 1 then 1 else limit.value)
    {
      FilesStep(objs, i);
      var obj := objs[i];
      if EndsWith(obj.key, "/") {
        i := i + 1;
        continue;
      }
      out := out + [obj];
      count := count + 1;
      if limit.Some? && limit.value != 0 && count >= limit.value {
        LimitReached(objs, i + 1, limit);
        return;
      }
      i := i + 1;
    }
    assert objs[..i] == objs;
  }

  /** The index of the first strictly newest timestamp among `stamps`
      (`ts > best` only replaces on a strictly newer one), if any is present. */
  function ArgNewest(stamps: seq<Option<int>>): (w: Option<nat>)
    ensures w.Some? ==> w.value < |stamps| && stamps[w.value].Some?
  {
    if stamps == [] then None
    else
      var n := |stamps| - 1;
      var prev := ArgNewest(stamps[..n]);
      if stamps[n].Some? && (prev.None? || stamps[n].value > stamps[prev.value].value)
      then Some(n)
      else prev
  }

  /** The scan finds nothing exactly when no timestamp is present; otherwise
      its pick is at least as new as every timestamp and strictly newer than
      every earlier one. */
  lemma {:induction false} ArgNewestIsNewest(stamps: seq<Option<int>>)
    ensures var w := ArgNewest(stamps);
      (w.None? <==> forall k :: 0 <= k < |stamps| ==> stamps[k].None?)
      && (w.Some? ==> forall k :: 0 <= k < |stamps| && stamps[k].Some? ==>
            stamps[k].value <= stamps[w.value].value)
      && (w.Some? ==> forall k :: 0 <= k < w.value && stamps[k].Some? ==>
            stamps[k].value < stamps[w.value].value)
  {
    if stamps != [] {
      var n := |stamps| - 1;
      var init := stamps[..n];
      ArgNewestIsNewest(init);
      assert forall k :: 0 <= k < n ==> init[k] == stamps[k];
    }
  }

  /** One more step of the scan: the new timestamp wins only when it is
      strictly newer than the best so far. */
  lemma ArgNewestStep(stamps: seq<Option<int>>, i: nat)
    requires i < |stamps|
    ensures var prev := ArgNewest(stamps[..i]);
      ArgNewest(stamps[..i + 1]) ==
        if stamps[i].Some? && (prev.None? || stamps[i].value > stamps[prev.value].value)
        then Some(i) else prev
  {
    assert stamps[..i + 1][..i] == stamps[..i];
  }

  /** The scan's step seen from a loop that keeps the best timestamp so far. */
  lemma ArgNewestKeep(stamps: seq<Option<int>>, i: nat, at: Option<nat>, bestTs: Option<int>, ts: Option<int>)
    requires i < |stamps| && at == ArgNewest(stamps[..i]) && ts == stamps[i]
    requires at.None? ==> bestTs.None?
    requires at.Some? ==> at.value < i && bestTs == stamps[at.value]
    ensures ArgNewest(stamps[..i + 1]) ==
      if ts.Some? && (bestTs.None? || ts.value > bestTs.value) then Some(i) else at
  {
    ArgNewestStep(stamps, i);
  }

  /** The newest of the timestamps, if any is present. */
  function NewestOf(stamps: seq<Option<int>>): Option<int> {
    match ArgNewest(stamps)
    case None => None
    case Some(k) => stamps[k]
  }

  /** The `LastModified` of each object of a listing. */
  function Stamps(objs: seq<S3Object>): (r: seq<Option<int>>)
    ensures |r| == |objs| && forall k :: 0 <= k < |objs| ==> r[k] == objs[k].lastModified
  {
    seq(|objs|, k requires 0 <= k < |objs| => objs[k].lastModified)
  }

  /** The inner loop of latest_user_with_audio: the newest timestamp of a listing. */
  method NewestTimestamp(objs: seq<S3Object>) returns (latest: Option<int>)
    ensures latest == NewestOf(Stamps(objs))
  {
    ghost var stamps := Stamps(objs);
    ghost var at: Option<nat> := None;
    latest := None;
    var i := 0;
    while i < |objs|
      invariant 0 <= i <= |objs|
      invariant at == ArgNewest(stamps[..i])
      invariant at.None? ==> latest.None?
      invariant at.Some? ==> at.value < i && latest == stamps[at.value]
    {
      var ts := objs[i].lastModified;
      ArgNewestKeep(stamps, i, at, latest, ts);
      if ts.Some? && (latest.None? || ts.value > latest.value) {
        latest := ts;
        at := Some(i);
      }
      i := i + 1;
    }
    assert stamps[..i] == stamps;
  }

  /** The users' base prefix with its trailing "/". */
  function BasePrefix(cfg: Config): string {
    WithSlash(cfg.usersBasePrefix)
  }

  /** The newest timestamp under the recordings folder of each user's common prefix. */
  function UserStamps(cfg: Config, store: Store, prefixes: seq<string>): (r: seq<Option<int>>)
    ensures |r| == |prefixes|
  {
    seq(|prefixes|, k requires 0 <= k < |prefixes| =>
      NewestOf(Stamps(store.listing(BuildUserPrefix(cfg, UserIdOf(prefixes[k], BasePrefix(cfg)))))))
  }

  lemma UserStampAt(cfg: Config, store: Store, prefixes: seq<string>, i: nat)
    requires i < |prefixes|
    ensures UserStamps(cfg, store, prefixes)[i] ==
      NewestOf(Stamps(store.listing(BuildUserPrefix(cfg, UserIdOf(prefixes[i], BasePrefix(cfg))))))
  {
  }

  /** latest_user_with_audio: the first user (in listing order) whose
      recordings hold the most recent object; none when no object is dated. */
  function LatestUser(cfg: Config, store: Store): Option<string> {
    match ArgNewest(UserStamps(cfg, store, store.commonPrefixes))
    case None => None
    case Some(k) => Some(UserIdOf(store.commonPrefixes[k], BasePrefix(cfg)))
  }

  /** `picked` is the user of the newest stamp: nothing exactly when no stamp
      is present; otherwise the user of a present stamp that is at least as
      new as every other and strictly newer than those listed before it. */
  predicate PicksNewest(stamps: seq<Option<int>>, prefixes: seq<string>, base: string, picked: Option<string>)
    requires |stamps| == |prefixes|
  {
    (picked.None? <==> forall k :: 0 <= k < |stamps| ==> stamps[k].None?)
    && (picked.Some? ==>
          exists k :: (0 <= k < |stamps| && stamps[k].Some?
            && picked.value == UserIdOf(prefixes[k], base)
            && (forall j :: 0 <= j < |stamps| && stamps[j].Some? ==> stamps[j].value <= stamps[k].value)
            && (forall j :: 0 <= j < k && stamps[j].Some? ==> stamps[j].value < stamps[k].value)))
  }

  /** No user is chosen exactly when no recording is dated; otherwise the
      chosen user's newest recording is at least as new as every other
      user's, and strictly newer than those of the users listed before it. */
  lemma LatestUserIsNewest(cfg: Config, store: Store)
    ensures PicksNewest(UserStamps(cfg, store, store.commonPrefixes), store.commonPrefixes,
                        BasePrefix(cfg), LatestUser(cfg, store))
  {
    NewestPicked(UserStamps(cfg, store, store.commonPrefixes), store.commonPrefixes,
                 BasePrefix(cfg), LatestUser(cfg, store));
  }

  /** The user picked through ArgNewest has the newest stamp, for any stamps. */
  lemma NewestPicked(stamps: seq<Option<int>>, prefixes: seq<string>, base: string, picked: Option<string>)
    requires |stamps| == |prefixes|
    requires picked == match ArgNewest(stamps)
      case None => None
      case Some(k) => Some(UserIdOf(prefixes[k], base))
    ensures PicksNewest(stamps, prefixes, base, picked)
  {
    ArgNewestIsNewest(stamps);
  }

  /** latest_user_with_audio, as the loop over the users' common prefixes that
      keeps the strictly newest timestamp seen so far. */
  method LatestUserWithAudio(cfg: Config, store: Store) returns (best: Option<string>)
    ensures best == LatestUser(cfg, store)
  {
    var base := BasePrefix(cfg);
    var users := store.commonPrefixes;
    ghost var stamps := UserStamps(cfg, store, users);
    ghost var at: Option<nat> := None;
    var bestTs: Option<int> := None;
    best := None;
    var i := 0;
    while i < |users|
      invariant 0 <= i <= |users|
      invariant at == ArgNewest(stamps[..i])
      invariant at.None? ==> bestTs.None? && best.None?
      invariant at.Some? ==> (at.value < i && bestTs == stamps[at.value]
        && best == Some(UserIdOf(users[at.value], base)))
    {
      var userId := UserIdOf(users[i], base);
      var latest := NewestTimestamp(store.listing(BuildUserPrefix(cfg, userId)));
      UserStampAt(cfg, store, users, i);
      ArgNewestKeep(stamps, i, at, bestTs, latest);
      if latest.Some? && (bestTs.None? || latest.value > bestTs.value) {
        bestTs := latest;
        best := Some(userId);
        at := Some(i);
      }
      i := i + 1;
    }
    assert stamps[..i] == stamps;
  }

  // ------------------------------------------------------ key resolution

  /** The key after the options were applied: options.user_id fills an empty
      key; options.user == "latest" (any case) replaces an empty key or the
      bare base prefix with the newest user's folder. `latest` is what
      latest_user_with_audio returns. */
  function ResolveKey(key: Option<string>, opts: Options, cfg: Config,
                      latest: Option<string>): (r: Result<string, Rejection>)
    ensures r.Ok? ==> r.value != ""
    ensures r.Err? ==> r.error == Rejection(400, "BAD_INPUT") || r.error == Rejection(404, "NO_USERS_WITH_AUDIO")
    ensures r.Ok? && !Truthy(key) ==> EndsWith(r.value, "/") && StartsWith(r.value, cfg.usersBasePrefix)
  {
    var key1 := if Truthy(opts.userId) && !Truthy(key)
                then Some(BuildUserPrefix(cfg, opts.userId.value)) else key;
    var auto := Lower(opts.user) == "latest";
    if auto && (!Truthy(key1) || RStripChar(key1.value, '/') == RStripChar(cfg.usersBasePrefix, '/')) then
      if !Truthy(latest) then Err(Rejection(404, "NO_USERS_WITH_AUDIO"))
      else Ok(BuildUserPrefix(cfg, latest.value))
    else if !Truthy(key1) then Err(Rejection(400, "BAD_INPUT"))
    else Ok(key1.value)
  }

  /** A non-empty key is never replaced by options.user_id. */
  lemma UserIdOnlyFillsEmptyKey(key: string, opts: Options, cfg: Config, latest: Option<string>)
    requires key != ""
    ensures ResolveKey(Some(key), opts, cfg, latest) == ResolveKey(Some(key), opts.(userId := None), cfg, latest)
  {
  }

  /** "latest" only overrides an empty key or the base prefix itself; any
      other key is used as given. */
  lemma LatestOnlyForEmptyOrBase(key: string, opts: Options, cfg: Config, latest: Option<string>)
    requires key != "" && RStripChar(key, '/') != RStripChar(cfg.usersBasePrefix, '/')
    ensures ResolveKey(Some(key), opts, cfg, latest) == Ok(key)
  {
  }

  /** With "latest" requested for an empty key and no user found (or an empty
      user id found), the request fails with 404. */
  lemma LatestWithoutUser404(opts: Options, cfg: Config, latest: Option<string>)
    requires Lower(opts.user) == "latest" && !Truthy(opts.userId) && !Truthy(latest)
    ensures ResolveKey(None, opts, cfg, latest) == Err(Rejection(404, "NO_USERS_WITH_AUDIO"))
  {
  }

  /** Without a key, a user id or "latest", the request fails with 400. */
  lemma MissingKey400(key: Option<string>, opts: Options, cfg: Config, latest: Option<string>)
    requires !Truthy(key) && !Truthy(opts.userId) && Lower(opts.user) != "latest"
    ensures ResolveKey(key, opts, cfg, latest) == Err(Rejection(400, "BAD_INPUT"))
  {
  }

  /** A key built from options.user_id is always accepted as a prefix, and it
      is not subject to check_key: a user id holding ".." passes through. */
  lemma UserIdKeyIsPrefix(opts: Options, cfg: Config, latest: Option<string>)
    requires Truthy(opts.userId) && Lower(opts.user) != "latest"
    ensures ResolveKey(None, opts, cfg, latest) == Ok(BuildUserPrefix(cfg, opts.userId.value))
    ensures IsAllowedKey(BuildUserPrefix(cfg, opts.userId.value), cfg.allowedExts)
  {
  }

  // ----------------------------------------------------------- admission

  /** `req.bucket or DEFAULT_BUCKET`. */
  function EffectiveBucket(req: Request, cfg: Config): (b: string)
    ensures b == "" <==> !Truthy(req.bucket) && cfg.defaultBucket == ""
    ensures Truthy(req.bucket) ==> b == req.bucket.value
  {
    if Truthy(req.bucket) then req.bucket.value else cfg.defaultBucket
  }

  /** A request that passed every check before processing starts. */
  datatype Admitted = Admitted(key: string, framesMode: bool, size: nat, contentType: Option<string>)

  /** The HTTP error for a failed HEAD request. */
  function HeadRejection(status: int): (r: Rejection)
    ensures r.status == 404 <==> status == 404
    ensures r.status == 403 <==> status == 403
    ensures r.status in {404, 403, 502}
  {
    if status == 404 then Rejection(404, "S3_NOT_FOUND")
    else if status == 403 then Rejection(403, "S3_FORBIDDEN")
    else Rejection(502, "S3_ERROR")
  }

  /** The request-validation error: check_key runs while the request body is
      parsed, so a refused key is answered with 422 before `process` starts;
      the detail carries the validator's message. */
  function InvalidKey(v: Option<string>): Rejection
    requires CheckKey(v).Err?
  {
    Rejection(422, CheckKey(v).error)
  }

  /** The checks made before any analysis, in order: check_key on the
      request body, then in `process` the bucket, key resolution, extension,
      and (single file only) HEAD and the in-memory size ceiling. */
  function Admit(req: Request, cfg: Config, store: Store): (r: Result<Admitted, Rejection>)
    ensures CheckKey(req.key).Err? ==> r == Err(InvalidKey(req.key))
    ensures r.Ok? ==>
      && CheckKey(req.key).Ok? && EffectiveBucket(req, cfg) != ""
      && IsAllowedKey(r.value.key, cfg.allowedExts)
      && r.value.framesMode == LooksLikePrefix(r.value.key)
      && (!r.value.framesMode ==> r.value.size <= cfg.maxBytesInMemory)
  {
    if CheckKey(req.key).Err? then Err(InvalidKey(req.key))
    else if EffectiveBucket(req, cfg) == "" then Err(Rejection(400, "BAD_INPUT"))
    else match ResolveKey(req.key, req.options, cfg, LatestUser(cfg, store))
      case Err(r) => Err(r)
      case Ok(key) =>
        if !IsAllowedKey(key, cfg.allowedExts) then Err(Rejection(415, "UNSUPPORTED_MEDIA_TYPE"))
        else if LooksLikePrefix(key) then Ok(Admitted(key, true, 0, None))
        else match store.head(key)
          case Err(status) => Err(HeadRejection(status))
          case Ok(h) =>
            if h.size > cfg.maxBytesInMemory then Err(Rejection(413, "PAYLOAD_TOO_LARGE"))
            else Ok(Admitted(key, false, h.size, h.contentType))
  }

  /** A key that check_key refuses is answered with 422 whatever the bucket
      and whatever the store holds: no HEAD request, listing or user lookup
      is made for it. */
  lemma RefusedKeyFirst(req: Request, cfg: Config, store: Store, other: Store)
    requires CheckKey(req.key).Err?
    ensures Admit(req, cfg, store) == Err(Rejection(422, "Invalid S3 key"))
    ensures Admit(req, cfg, other) == Admit(req, cfg, store)
    ensures Admit(req.(bucket := None), cfg.(defaultBucket := ""), store) == Admit(req, cfg, store)
  {
  }

  /** Among requests whose key check_key accepts, a missing bucket is
      reported before anything about the key is looked at. */
  lemma MissingBucketFirst(req: Request, cfg: Config, store: Store)
    requires CheckKey(req.key).Ok?
    requires EffectiveBucket(req, cfg) == ""
    ensures Admit(req, cfg, store) == Err(Rejection(400, "BAD_INPUT"))
  {
  }

  /** A key with a disallowed extension is refused with 415 before any HEAD
      request, whatever the object's size. */
  lemma DisallowedKeyBeforeSize(req: Request, cfg: Config, store: Store, other: string -> Result<Head, int>)
    requires CheckKey(req.key).Ok?
    requires EffectiveBucket(req, cfg) != ""
    requires ResolveKey(req.key, req.options, cfg, LatestUser(cfg, store)).Ok?
    requires !IsAllowedKey(ResolveKey(req.key, req.options, cfg, LatestUser(cfg, store)).value, cfg.allowedExts)
    ensures Admit(req, cfg, store) == Err(Rejection(415, "UNSUPPORTED_MEDIA_TYPE"))
    ensures Admit(req, cfg, store.(head := other)) == Admit(req, cfg, store)
  {
  }

  /** The size ceiling is inclusive: a single object of exactly
      MAX_BYTES_IN_MEMORY bytes is admitted, one byte more is refused with 413. */
  lemma SizeCeilingInclusive(req: Request, cfg: Config, store: Store, key: string, h: Head)
    requires CheckKey(req.key).Ok?
    requires EffectiveBucket(req, cfg) != ""
    requires ResolveKey(req.key, req.options, cfg, LatestUser(cfg, store)) == Ok(key)
    requires HasAllowedExt(key, cfg.allowedExts) && !LooksLikePrefix(key)
    requires store.head(key) == Ok(h)
    ensures h.size == cfg.maxBytesInMemory ==> Admit(req, cfg, store).Ok?
    ensures h.size == cfg.maxBytesInMemory + 1 ==> Admit(req, cfg, store) == Err(Rejection(413, "PAYLOAD_TOO_LARGE"))
  {
  }

  /** In frames mode no HEAD request is made and no size ceiling applies. */
  lemma PrefixSkipsHead(req: Request, cfg: Config, store: Store, other: string -> Result<Head, int>)
    requires CheckKey(req.key).Ok?
    requires EffectiveBucket(req, cfg) != ""
    requires ResolveKey(req.key, req.options, cfg, LatestUser(cfg, store)).Ok?
    requires LooksLikePrefix(ResolveKey(req.key, req.options, cfg, LatestUser(cfg, store)).value)
    ensures Admit(req, cfg, store).Ok? && Admit(req, cfg, store).value.framesMode
    ensures Admit(req, cfg, store.(head := other)) == Admit(req, cfg, store)
  {
  }

  // ------------------------------------------------------ per-file loop

  /** The frames and error entries of the per-file loop. */
  datatype FrameScan = FrameScan(frames: seq<FrameEntry>, errors: seq<ErrorEntry>)

  /** How many objects of a listing the extension filter skips silently. */
  function Skipped(objs: seq<S3Object>, exts: set<string>): nat {
    if objs == [] then 0
    else Skipped(objs[..|objs| - 1], exts) + (if HasAllowedExt(objs[|objs| - 1].key, exts) then 0 else 1)
  }

  /** The per-file loop of `process` over the objects under the prefix: an
      object without an allowed extension is skipped without an entry; one
      below `minSize` or above `maxBytes` gets a TooSmall or TooLarge entry;
      otherwise the analyser's success adds a frame and its failure an entry.
      Every object is accounted for exactly once. */
  function ScanFrames(objs: seq<S3Object>, exts: set<string>, minSize: int, maxBytes: int,
                      process: string -> Result<nat, string>): (r: FrameScan)
    ensures |r.frames| + |r.errors| + Skipped(objs, exts) == |objs|
    ensures forall f :: f in r.frames ==>
      minSize <= f.sizeBytes <= maxBytes && HasAllowedExt(f.key, exts)
    ensures forall e :: e in r.errors ==> HasAllowedExt(e.key, exts)
  {
    if objs == [] then FrameScan([], [])
    else
      var prev := ScanFrames(objs[..|objs| - 1], exts, minSize, maxBytes, process);
      var o := objs[|objs| - 1];
      if !HasAllowedExt(o.key, exts) then prev
      else if o.size < minSize then
        FrameScan(prev.frames, prev.errors + [ErrorEntry(o.key, TooSmall(o.size, minSize))])
      else if o.size > maxBytes then
        FrameScan(prev.frames, prev.errors + [ErrorEntry(o.key, TooLarge(o.size, maxBytes))])
      else match process(o.key)
        case Ok(ms) => FrameScan(prev.frames + [FrameEntry(o.key, o.size, ms)], prev.errors)
        case Err(reason) => FrameScan(prev.frames, prev.errors + [ErrorEntry(o.key, Failed(reason))])
  }

  /** The loop ends with neither frames nor errors exactly when no object
      under the prefix has an allowed extension. */
  lemma NothingFoundIff(objs: seq<S3Object>, exts: set<string>, minSize: int, maxBytes: int,
                        process: string -> Result<nat, string>)
    ensures (ScanFrames(objs, exts, minSize, maxBytes, process) == FrameScan([], []))
      <==> Skipped(objs, exts) == |objs|
  {
    var r := ScanFrames(objs, exts, minSize, maxBytes, process);
    if Skipped(objs, exts) == |objs| {
      assert |r.frames| == 0 && |r.errors| == 0;
    }
  }

  function SumSizes(frames: seq<FrameEntry>): nat {
    if frames == [] then 0 else SumSizes(frames[..|frames| - 1]) + frames[|frames| - 1].sizeBytes
  }

  function SumMs(frames: seq<FrameEntry>): nat {
    if frames == [] then 0 else SumMs(frames[..|frames| - 1]) + frames[|frames| - 1].downloadMs
  }

  /** One more object extends the scan by that object's outcome. */
  lemma ScanStep(objs: seq<S3Object>, i: nat, exts: set<string>, minSize: int, maxBytes: int,
                 process: string -> Result<nat, string>)
    requires i < |objs|
    ensures ScanFrames(objs[..i + 1], exts, minSize, maxBytes, process) ==
      var prev := ScanFrames(objs[..i], exts, minSize, maxBytes, process);
      var o := objs[i];
      if !HasAllowedExt(o.key, exts) then prev
      else if o.size < minSize then
        FrameScan(prev.frames, prev.errors + [ErrorEntry(o.key, TooSmall(o.size, minSize))])
      else if o.size > maxBytes then
        FrameScan(prev.frames, prev.errors + [ErrorEntry(o.key, TooLarge(o.size, maxBytes))])
      else match process(o.key)
        case Ok(ms) => FrameScan(prev.frames + [FrameEntry(o.key, o.size, ms)], prev.errors)
        case Err(reason) => FrameScan(prev.frames, prev.errors + [ErrorEntry(o.key, Failed(reason))])
  {
    assert objs[..i + 1][..i] == objs[..i];
  }

  /** The per-file loop with its running totals. */
  method CollectFrames(objs: seq<S3Object>, exts: set<string>, minSize: int, maxBytes: int,
                       process: string -> Result<nat, string>)
    returns (frames: seq<FrameEntry>, errors: seq<ErrorEntry>,
             totalBytes: nat, totalDownloadMs: nat, count: nat)
    ensures FrameScan(frames, errors) == ScanFrames(objs, exts, minSize, maxBytes, process)
    ensures totalBytes == SumSizes(frames) && totalDownloadMs == SumMs(frames)
    ensures count == |frames|
  {
    frames, errors := [], [];
    totalBytes, totalDownloadMs, count := 0, 0, 0;
    var i := 0;
    while i < |objs|
      invariant 0 <= i <= |objs|
      invariant FrameScan(frames, errors) == ScanFrames(objs[..i], exts, minSize, maxBytes, process)
      invariant totalBytes == SumSizes(frames) && totalDownloadMs == SumMs(frames)
      invariant count == |frames|
    {
      ScanStep(objs, i, exts, minSize, maxBytes, process);
      var obj := objs[i];
      var key := obj.key;
      var size := obj.size;
      i := i + 1;
      if !HasAllowedExt(key, exts) {
        continue;
      }
      if size < minSize {
        errors := errors + [ErrorEntry(key, TooSmall(size, minSize))];
        continue;
      }
      if size > maxBytes {
        errors := errors + [ErrorEntry(key, TooLarge(size, maxBytes))];
        continue;
      }
      match process(key)
      case Ok(downloadMs) =>
        frames := frames + [FrameEntry(key, size, downloadMs)];
        totalBytes := totalBytes + size;
        totalDownloadMs := totalDownloadMs + downloadMs;
        count := count + 1;
      case Err(reason) =>
        errors := errors + [ErrorEntry(key, Failed(reason))];
    }
    assert objs[..i] == objs;
  }

  // ------------------------------------------------------------- process

  /** The objects the per-file loop walks for an admitted prefix. */
  function PrefixFiles(store: Store, key: string): seq<S3Object> {
    Files(store.listing(key))
  }

  /** The response of the per-file branch once the loop is done: 422 with the
      error entries when every frame failed, 404 when there was nothing to
      analyse, otherwise the frames, with the "errors" key only when some
      object failed, and the totals. */
  function PerFileResult(key: string, s: FrameScan, minSize: int): (out: Outcome)
    ensures out.Rejected? <==> s.frames == []
    ensures s.frames == [] && s.errors != [] ==> out == Rejected(422, "ALL_FRAMES_FAILED", s.errors)
    ensures s.frames == [] && s.errors == [] ==> out == Rejected(404, "NO_FRAMES", [])
    ensures out.PerFileDone? ==>
      && out.key == key && out.frames == s.frames
      && out.framesCount == |s.frames| && out.skippedOrFailed == |s.errors|
      && out.sizeBytes == SumSizes(s.frames) && out.sumDownloadMs == SumMs(s.frames)
      && out.minSizeBytes == minSize
      && (out.errorsKey.Some? <==> s.errors != [])
      && (out.errorsKey.Some? ==> out.errorsKey.value == s.errors)
  {
    if s.frames == [] && s.errors != [] then Rejected(422, "ALL_FRAMES_FAILED", s.errors)
    else if s.frames == [] then Rejected(404, "NO_FRAMES", [])
    else PerFileDone(key, s.frames, if s.errors == [] then None else Some(s.errors),
                     SumSizes(s.frames), |s.frames|, SumMs(s.frames), |s.errors|, minSize)
  }

  /** Every object of a listing is skipped exactly when none has an allowed extension. */
  lemma {:induction false} SkippedAllIff(objs: seq<S3Object>, exts: set<string>)
    ensures Skipped(objs, exts) <= |objs|
    ensures Skipped(objs, exts) == |objs| <==> forall k :: 0 <= k < |objs| ==> !HasAllowedExt(objs[k].key, exts)
  {
    if objs != [] {
      var init := objs[..|objs| - 1];
      SkippedAllIff(init, exts);
      assert forall k :: 0 <= k < |init| ==> init[k] == objs[k];
    }
  }

  /** The per-file branch answers 404 NO_FRAMES exactly when no listed object
      has an allowed extension, and 422 ALL_FRAMES_FAILED exactly when some
      object was tried and none became a frame. */
  lemma PerFileRejections(key: string, objs: seq<S3Object>, exts: set<string>, minSize: int,
                          maxBytes: int, process: string -> Result<nat, string>)
    ensures var out := PerFileResult(key, ScanFrames(objs, exts, minSize, maxBytes, process), minSize);
      (out == Rejected(404, "NO_FRAMES", []) <==> forall k :: 0 <= k < |objs| ==> !HasAllowedExt(objs[k].key, exts))
      && (out.Rejected? && out.status == 422 <==>
          (ScanFrames(objs, exts, minSize, maxBytes, process).frames == []
           && exists k :: 0 <= k < |objs| && HasAllowedExt(objs[k].key, exts)))
  {
    NothingFoundIff(objs, exts, minSize, maxBytes, process);
    SkippedAllIff(objs, exts);
  }

  /** The dynamic key building of `process`: it asks for the newest user only
      when "latest" applies. */
  method ResolveRequestKey(req: Request, cfg: Config, store: Store) returns (r: Result<string, Rejection>)
    ensures r == ResolveKey(req.key, req.options, cfg, LatestUser(cfg, store))
  {
    var key := req.key;
    var opts := req.options;
    var userAuto := Lower(opts.user) == "latest";
    if Truthy(opts.userId) && !Truthy(key) {
      key := Some(BuildUserPrefix(cfg, opts.userId.value));
    }
    if userAuto && (!Truthy(key) || RStripChar(key.value, '/') == RStripChar(cfg.usersBasePrefix, '/')) {
      var uid := LatestUserWithAudio(cfg, store);
      if !Truthy(uid) {
        return Err(Rejection(404, "NO_USERS_WITH_AUDIO"));
      }
      key := Some(BuildUserPrefix(cfg, uid.value));
    }
    if !Truthy(key) {
      return Err(Rejection(400, "BAD_INPUT"));
    }
    r := Ok(key.value);
  }

  /** The per-file branch: list the files under the prefix and analyse each. */
  method ProcessPerFile(key: string, opts: Options, cfg: Config, store: Store) returns (out: Outcome)
    ensures out == PerFileResult(key, ScanFrames(PrefixFiles(store, key), cfg.allowedExts,
                                                 opts.minSizeBytes, cfg.maxBytesInMemory, store.process),
                                 opts.minSizeBytes)
  {
    var objs := ListObjects(store.listing(key), None);
    assert objs == PrefixFiles(store, key);
    var frames, errors, totalBytes, totalDownloadMs, count :=
      CollectFrames(objs, cfg.allowedExts, opts.minSizeBytes, cfg.maxBytesInMemory, store.process);
    if frames == [] && errors != [] {
      return Rejected(422, "ALL_FRAMES_FAILED", errors);
    }
    if frames == [] && errors == [] {
      return Rejected(404, "NO_FRAMES", []);
    }
    var errorsKey := if errors == [] then None else Some(errors);
    out := PerFileDone(key, frames, errorsKey, totalBytes, count, totalDownloadMs,
                       |errors|, opts.minSizeBytes);
  }

  /** process: the ordered checks of `Admit`, then one of three branches: the
      per-file loop (frames mode, the default), one concatenated analysis
      (frames mode with per_file false), or the single object. */
  method Process(req: Request, cfg: Config, store: Store) returns (out: Outcome)
    ensures Admit(req, cfg, store).Err? ==>
      out == Rejected(Admit(req, cfg, store).error.status, Admit(req, cfg, store).error.code, [])
    ensures Admit(req, cfg, store).Ok? && Admit(req, cfg, store).value.framesMode && req.options.perFile ==>
      var key := Admit(req, cfg, store).value.key;
      out == PerFileResult(key, ScanFrames(PrefixFiles(store, key), cfg.allowedExts,
                                           req.options.minSizeBytes, cfg.maxBytesInMemory, store.process),
                           req.options.minSizeBytes)
    ensures Admit(req, cfg, store).Ok? && Admit(req, cfg, store).value.framesMode && !req.options.perFile ==>
      var key := Admit(req, cfg, store).value.key;
      match store.processFrames(key)
      case Err(_) => out == Rejected(422, "CONCAT_FAILED", [])
      case Ok(st) => out == ConcatDone(key, st.totalBytes, st.fileCount, st.downloadMs)
    ensures Admit(req, cfg, store).Ok? && !Admit(req, cfg, store).value.framesMode ==>
      var a := Admit(req, cfg, store).value;
      match store.process(a.key)
      case Err(_) => out == Rejected(422, "PROCESSING_FAILED", [])
      case Ok(ms) => out == SingleDone(a.key, a.contentType, a.size, ms)
  {
    if CheckKey(req.key).Err? {
      var r := InvalidKey(req.key);
      return Rejected(r.status, r.code, []);
    }
    var bucket := EffectiveBucket(req, cfg);
    if bucket == "" {
      return Rejected(400, "BAD_INPUT", []);
    }
    var resolved := ResolveRequestKey(req, cfg, store);
    if resolved.Err? {
      return Rejected(resolved.error.status, resolved.error.code, []);
    }
    var k := resolved.value;
    if !IsAllowedKey(k, cfg.allowedExts) {
      return Rejected(415, "UNSUPPORTED_MEDIA_TYPE", []);
    }

    var framesMode := LooksLikePrefix(k);
    var contentType: Option<string> := None;
    var size: nat := 0;
    if !framesMode {
      var head := store.head(k);
      if head.Err? {
        var r := HeadRejection(head.error);
        return Rejected(r.status, r.code, []);
      }
      size, contentType := head.value.size, head.value.contentType;
      if size > cfg.maxBytesInMemory {
        return Rejected(413, "PAYLOAD_TOO_LARGE", []);
      }
    }

    if framesMode && req.options.perFile {
      out := ProcessPerFile(k, req.options, cfg, store);
    } else if framesMode {
      var concat := store.processFrames(k);
      if concat.Err? {
        return Rejected(422, "CONCAT_FAILED", []);
      }
      var st := concat.value;
      out := ConcatDone(k, st.totalBytes, st.fileCount, st.downloadMs);
    } else {
      var single := store.process(k);
      if single.Err? {
        return Rejected(422, "PROCESSING_FAILED", []);
      }
      out := SingleDone(k, contentType, size, single.value);
    }
  }
}
