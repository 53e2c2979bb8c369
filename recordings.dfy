/** The object-selection helpers of ai-counselling/backend/speech_to_text.py:
    the user folders under the base prefix, the newest recordings across all
    users, and the first few of them that decode. The bucket is replaced by
    a listing function and decoding by an oracle. */
module Recordings {
  import opened Wrappers
  import opened Text
  import opened Slicing

  /** `MIN_SIZE_BYTES`: smaller objects are partial chunks and are skipped. */
  const MinSizeBytes: nat := 8192

  /** One listed object: Key, Size and LastModified (an epoch timestamp). */
  datatype Item = Item(key: string, size: nat, lastModified: int)

  // ---------------------------------------------------------------- users

  /** The index of the first "/" in `p`, or `|p|` when there is none. */
  function SlashIndex(p: string): (i: nat)
    ensures i <= |p|
    ensures i < |p| ==> p[i] == '/'
    ensures '/' !in p[..i]
  {
    if p == [] || p[0] == '/' then 0
    else
      var j := SlashIndex(p[1..]);
      assert p[..j + 1] == [p[0]] + p[1..][..j];
      j + 1
  }

  /** `p.split("/", 1)[1]`: the text after the first "/"; the split raises
      IndexError when `p` has no "/". */
  function AfterFirstSlash(p: string): (r: Option<string>)
    ensures r.None? <==> '/' !in p
  {
    var i := SlashIndex(p);
    if i == |p| then (assert p[..i] == p; None) else Some(p[i + 1..])
  }

  /** A "/" at `i` with none before it is the one the split cuts at. */
  lemma AfterSlashAt(p: string, i: nat)
    requires i < |p| && p[i] == '/' && '/' !in p[..i]
    ensures AfterFirstSlash(p) == Some(p[i + 1..])
  {
  }

  /** The user name list_users derives from a common prefix, as written: the
      text after the FIRST "/", without trailing "/". */
  function UserOfPrefixAsWritten(p: string): (r: Option<string>)
    ensures r.None? <==> '/' !in p
    ensures r.Some? ==> exists i ::
      0 <= i < |p| && p[i] == '/' && '/' !in p[..i] && r.value == RStripChar(p[i + 1..], '/')
  {
    match AfterFirstSlash(p)
    case None => None
    case Some(t) => Some(RStripChar(t, '/'))
  }

  /** `base.rstrip("/") + "/"`: the listing prefix list_users asks for. */
  function BaseFolder(base: string): (r: string)
    ensures EndsWith(r, "/")
  {
    var b := RStripChar(base, '/') + "/";
    assert b[|b| - 1..] == "/";
    b
  }

  /** Stripping the trailing "/" off a name followed by one "/". */
  lemma StripOneSlash(user: string)
    requires user == [] || user[|user| - 1] != '/'
    ensures RStripChar(user + "/", '/') == user
  {
    var t := user + "/";
    assert t[..|t| - 1] == user;
  }

  /** With a base prefix nested one level deeper ("data/users/"), the user
      name comes out as "users/u1" instead of "u1". */
  lemma NestedBaseMisnamesUser()
    ensures BaseFolder("data/users/") == "data/users/"
    ensures UserOfPrefixAsWritten("data/users/u1/") == Some("users/u1")
  {
    var base := "data/users/";
    assert base[..10] == "data/users";
    assert RStripChar(base, '/') == RStripChar("data/users", '/');
    var p := "data/users/u1/";
    assert p[..4] == "data";
    assert p[5..] == "users/u1/";
    AfterSlashAt(p, 4);
    StripOneSlash("users/u1");
    assert "users/u1" + "/" == "users/u1/";
  }

  /** The user name of a common prefix: the prefix with the base folder
      removed and trailing "/" stripped. */
  function UserOfPrefix(p: string, base: string): (r: string)
    ensures r == [] || r[|r| - 1] != '/'
    ensures StartsWith(p, BaseFolder(base)) ==>
      var rest := p[|BaseFolder(base)|..];
      StartsWith(rest, r) && forall k :: |r| <= k < |rest| ==> rest[k] == '/'
    ensures !StartsWith(p, BaseFolder(base)) ==>
      StartsWith(p, r) && forall k :: |r| <= k < |p| ==> p[k] == '/'
  {
    RStripChar(RemovePrefix(p, BaseFolder(base)), '/')
  }

  /** The name comes back out of the folder it names, at any nesting of the
      base prefix. */
  lemma UserOfPrefixRoundTrip(base: string, user: string)
    requires user == [] || user[|user| - 1] != '/'
    ensures UserOfPrefix(BaseFolder(base) + user + "/", base) == user
  {
    var b := BaseFolder(base);
    var p := b + user + "/";
    assert p[..|b|] == b;
    assert p[|b|..] == user + "/";
    StripOneSlash(user);
  }

  /** For a single-level base the two readings agree. */
  lemma SingleLevelBaseAgrees(base: string, user: string)
    requires '/' !in RStripChar(base, '/')
    ensures UserOfPrefixAsWritten(BaseFolder(base) + user + "/") == Some(UserOfPrefix(BaseFolder(base) + user + "/", base))
  {
    var r := RStripChar(base, '/');
    var b := BaseFolder(base);
    var q := user + "/";
    var p := b + q;
    assert BaseFolder(base) + user + "/" == p;
    assert p[..|r|] == r;
    assert p[|r|] == '/';
    assert p[|r| + 1..] == q;
    AfterSlashAt(p, |r|);
    assert p[..|b|] == b;
    assert RemovePrefix(p, b) == q;
  }

  /** The names list_users reports for the common prefixes under the base. */
  function Users(commonPrefixes: seq<string>, base: string): (users: seq<string>)
    ensures |users| == |commonPrefixes|
    ensures forall k :: 0 <= k < |users| ==> users[k] == UserOfPrefix(commonPrefixes[k], base)
  {
    seq(|commonPrefixes|, k requires 0 <= k < |commonPrefixes| => UserOfPrefix(commonPrefixes[k], base))
  }

  /** list_users, reading each name relative to the base folder. */
  method ListUsers(commonPrefixes: seq<string>, base: string) returns (users: seq<string>)
    ensures users == Users(commonPrefixes, base)
  {
    users := [];
    var i := 0;
    while i < |commonPrefixes|
      invariant 0 <= i <= |commonPrefixes|
      invariant |users| == i
      invariant forall k :: 0 <= k < i ==> users[k] == UserOfPrefix(commonPrefixes[k], base)
    {
      users := users + [UserOfPrefix(commonPrefixes[i], base)];
      i := i + 1;
    }
  }

  // ------------------------------------------------------- newest first

  /** The recordings folder of a user: `{base.rstrip('/')}/{user}/{sub.strip('/')}/`. */
  function RecordFolder(base: string, user: string, sub: string): string {
    RStripChar(base, '/') + "/" + user + "/" + StripChar(sub, '/') + "/"
  }

  /** The objects of one listing that are neither folders nor partial chunks. */
  function Keep(objs: seq<Item>): (r: seq<Item>)
    ensures |r| <= |objs|
    ensures forall x :: x in r ==> x in objs && !EndsWith(x.key, "/") && x.size >= MinSizeBytes
  {
    if objs == [] then []
    else
      var o := objs[|objs| - 1];
      Keep(objs[..|objs| - 1]) + (if EndsWith(o.key, "/") || o.size < MinSizeBytes then [] else [o])
  }

  /** An object is kept exactly when it is not a folder and has at least
      MIN_SIZE_BYTES bytes (so one of exactly 8192 bytes is kept). */
  lemma KeepOne(o: Item)
    ensures Keep([o]) == (if !EndsWith(o.key, "/") && o.size >= MinSizeBytes then [o] else [])
  {
    assert [o][..0] == [];
  }

  /** Keep works object by object: the kept objects of two listings laid end
      to end are those of the first, then those of the second. */
  lemma {:induction false} KeepConcat(a: seq<Item>, b: seq<Item>)
    ensures Keep(a + b) == Keep(a) + Keep(b)
  {
    if b == [] {
      assert a + b == a;
    } else {
      var n := |b| - 1;
      assert (a + b)[..|a + b| - 1] == a + b[..n];
      assert (a + b)[|a + b| - 1] == b[n];
      KeepConcat(a, b[..n]);
    }
  }

  /** The kept objects of every user's recordings folder, user by user. */
  function Gathered(users: seq<string>, base: string, sub: string,
                    listing: string -> seq<Item>): (r: seq<Item>)
    ensures forall x :: x in r ==> !EndsWith(x.key, "/") && x.size >= MinSizeBytes
  {
    if users == [] then []
    else
      var n := |users| - 1;
      Gathered(users[..n], base, sub, listing) + Keep(listing(RecordFolder(base, users[n], sub)))
  }

  /** Every gathered object was listed in the recordings folder of one of the users. */
  lemma {:induction false} GatheredFromUsers(users: seq<string>, base: string, sub: string,
                                             listing: string -> seq<Item>, x: Item)
    requires x in Gathered(users, base, sub, listing)
    ensures exists u :: 0 <= u < |users| && x in listing(RecordFolder(base, users[u], sub))
  {
    var n := |users| - 1;
    if x in Gathered(users[..n], base, sub, listing) {
      GatheredFromUsers(users[..n], base, sub, listing, x);
      var u :| 0 <= u < n && x in listing(RecordFolder(base, users[..n][u], sub));
      assert users[..n][u] == users[u];
    } else {
      assert x in listing(RecordFolder(base, users[n], sub));
    }
  }

  lemma GatheredStep(users: seq<string>, u: nat, base: string, sub: string,
                     listing: string -> seq<Item>)
    requires u < |users|
    ensures Gathered(users[..u + 1], base, sub, listing)
      == Gathered(users[..u], base, sub, listing) + Keep(listing(RecordFolder(base, users[u], sub)))
  {
    assert users[..u + 1][..u] == users[..u];
  }

  /** Sorted newest first. */
  predicate NewestFirst(s: seq<Item>) {
    forall i, j :: 0 <= i < j < |s| ==> s[i].lastModified >= s[j].lastModified
  }

  /** Inserts `x` after every item at least as new as it. */
  function InsertNewest(x: Item, s: seq<Item>): (r: seq<Item>)
    ensures multiset(r) == multiset(s) + multiset{x}
  {
    if s == [] then [x]
    else if s[0].lastModified >= x.lastModified then
      assert s == [s[0]] + s[1..];
      [s[0]] + InsertNewest(x, s[1..])
    else [x] + s
  }

  lemma {:induction false} InsertNewestSorted(x: Item, s: seq<Item>)
    requires NewestFirst(s)
    ensures NewestFirst(InsertNewest(x, s))
  {
    if s != [] && s[0].lastModified >= x.lastModified {
      var rest := InsertNewest(x, s[1..]);
      InsertNewestSorted(x, s[1..]);
      forall k | 0 <= k < |rest| ensures rest[k].lastModified <= s[0].lastModified {
        assert rest[k] in multiset(rest);
        if rest[k] != x {
          assert rest[k] in s[1..];
        }
      }
    }
  }

  /** `items.sort(key=LastModified, reverse=True)`: Python's sort is stable,
      also in reverse, so items with equal timestamps keep their order. */
  function SortNewest(items: seq<Item>): (r: seq<Item>)
    ensures multiset(r) == multiset(items)
    ensures NewestFirst(r)
  {
    if items == [] then []
    else
      var n := |items| - 1;
      assert items == items[..n] + [items[n]];
      var sorted := SortNewest(items[..n]);
      InsertNewestSorted(items[n], sorted);
      InsertNewest(items[n], sorted)
  }

  /** The items stamped `t`, in order. */
  function At(s: seq<Item>, t: int): seq<Item> {
    if s == [] then [] else (if s[0].lastModified == t then [s[0]] else []) + At(s[1..], t)
  }

  lemma {:induction false} AtConcat(a: seq<Item>, b: seq<Item>, t: int)
    ensures At(a + b, t) == At(a, t) + At(b, t)
  {
    if a == [] {
      assert a + b == b;
    } else {
      var head := if a[0].lastModified == t then [a[0]] else [];
      var rest := a[1..];
      TailOfConcat(a, b);
      AtConcat(rest, b, t);
      calc {
        At(a + b, t);
        head + At(rest + b, t);
        head + (At(rest, t) + At(b, t));
        (head + At(rest, t)) + At(b, t);
      }
    }
  }

  lemma TailOfConcat<T>(a: seq<T>, b: seq<T>)
    requires a != []
    ensures (a + b)[0] == a[0] && (a + b)[1..] == a[1..] + b
  {
  }

  lemma AtCons(y: Item, s: seq<Item>, t: int)
    ensures At([y] + s, t) == (if y.lastModified == t then [y] else []) + At(s, t)
  {
    assert ([y] + s)[0] == y;
    assert ([y] + s)[1..] == s;
  }

  lemma {:induction false} AtOlder(s: seq<Item>, t: int)
    requires forall k :: 0 <= k < |s| ==> s[k].lastModified < t
    ensures At(s, t) == []
  {
    if s != [] {
      AtOlder(s[1..], t);
    }
  }

  /** `x` newer than everything in `s` goes to the front. */
  lemma InsertFrontStable(x: Item, s: seq<Item>, t: int)
    requires NewestFirst(s) && (s == [] || s[0].lastModified < x.lastModified)
    ensures At(InsertNewest(x, s), t) == At(s, t) + (if x.lastModified == t then [x] else [])
  {
    var mine := if x.lastModified == t then [x] else [];
    InsertAtFront(x, s);
    AtCons(x, s, t);
    if x.lastModified == t {
      OlderThanHead(s, t);
      AtOlder(s, t);
    }
    assert mine + At(s, t) == At(s, t) + mine;
  }

  lemma InsertAtFront(x: Item, s: seq<Item>)
    requires s == [] || s[0].lastModified < x.lastModified
    ensures InsertNewest(x, s) == [x] + s
  {
  }

  /** In a newest-first sequence whose head is older than `t`, every item is. */
  lemma OlderThanHead(s: seq<Item>, t: int)
    requires NewestFirst(s) && (s == [] || s[0].lastModified < t)
    ensures forall k :: 0 <= k < |s| ==> s[k].lastModified < t
  {
  }

  lemma {:induction false} InsertNewestStable(x: Item, s: seq<Item>, t: int)
    requires NewestFirst(s)
    ensures At(InsertNewest(x, s), t) == At(s, t) + (if x.lastModified == t then [x] else [])
  {
    if s == [] || s[0].lastModified < x.lastModified {
      InsertFrontStable(x, s, t);
    } else {
      var tail := s[1..];
      assert NewestFirst(tail) by {
        assert forall i :: 0 <= i < |tail| ==> tail[i] == s[i + 1];
      }
      InsertNewestStable(x, tail, t);
      assert s == [s[0]] + tail;
      assert InsertNewest(x, s) == [s[0]] + InsertNewest(x, tail);
      ConsKeepsAt(s[0], tail, InsertNewest(x, tail), t, if x.lastModified == t then [x] else []);
    }
  }

  /** Putting the same item in front of two sequences keeps an appended tail
      of the items stamped `t`. */
  lemma ConsKeepsAt(y: Item, a: seq<Item>, b: seq<Item>, t: int, extra: seq<Item>)
    requires At(b, t) == At(a, t) + extra
    ensures At([y] + b, t) == At([y] + a, t) + extra
  {
    AtCons(y, a, t);
    AtCons(y, b, t);
    var here := if y.lastModified == t then [y] else [];
    assert here + (At(a, t) + extra) == (here + At(a, t)) + extra;
  }

  /** The sort is stable: for every timestamp, the items carrying it come out
      in their original order. */
  lemma {:induction false} SortNewestStable(items: seq<Item>, t: int)
    ensures At(SortNewest(items), t) == At(items, t)
  {
    if items != [] {
      SortNewestStable(items[..|items| - 1], t);
      SortLastStable(items, t);
    }
  }

  /** Sorting keeps each timestamp's order once it keeps it for all but the
      last item. */
  lemma SortLastStable(items: seq<Item>, t: int)
    requires items != []
    requires At(SortNewest(items[..|items| - 1]), t) == At(items[..|items| - 1], t)
    ensures At(SortNewest(items), t) == At(items, t)
  {
    var n := |items| - 1;
    var x, sorted := items[n], SortNewest(items[..n]);
    assert SortNewest(items) == InsertNewest(x, sorted);
    InsertNewestStable(x, sorted, t);
    AtLast(items, t);
  }

  lemma AtLast(items: seq<Item>, t: int)
    requires items != []
    ensures At(items, t) == At(items[..|items| - 1], t) +
      (if items[|items| - 1].lastModified == t then [items[|items| - 1]] else [])
  {
    var n := |items| - 1;
    assert items == items[..n] + [items[n]];
    AtSnoc(items[..n], items[n], t);
  }

  lemma AtSnoc(s: seq<Item>, x: Item, t: int)
    ensures At(s + [x], t) == At(s, t) + (if x.lastModified == t then [x] else [])
  {
    AtConcat(s, [x], t);
    AtCons(x, [], t);
    assert [x] + [] == [x];
  }

  /** `items[:limit]` for any integer `limit`: a negative one counts from the end. */
  function SliceTo<T>(s: seq<T>, limit: int): (r: seq<T>)
    ensures |r| <= |s| && r == s[..|r|]
    ensures limit >= 0 ==> |r| == if |s| < limit then |s| else limit
    ensures limit < 0 ==> |r| == if |s| + limit < 0 then 0 else |s| + limit
  {
    if limit >= 0 then Take(s, limit)
    else if |s| + limit < 0 then [] else s[..|s| + limit]
  }

  /** The kept objects of one listing, in listing order. */
  method KeepListed(objs: seq<Item>) returns (kept: seq<Item>)
    ensures kept == Keep(objs)
  {
    kept := [];
    var j := 0;
    while j < |objs|
      invariant 0 <= j <= |objs|
      invariant kept == Keep(objs[..j])
    {
      assert objs[..j + 1][..j] == objs[..j];
      var obj := objs[j];
      if !(EndsWith(obj.key, "/") || obj.size < MinSizeBytes) {
        kept := kept + [obj];
      }
      j := j + 1;
    }
    assert objs[..j] == objs;
  }

  /** list_latest_objects: every user's kept recordings, newest first, cut at `limit`. */
  method ListLatestObjects(commonPrefixes: seq<string>, base: string, sub: string,
                           listing: string -> seq<Item>, limit: int)
    returns (out: seq<Item>)
    ensures out == SliceTo(SortNewest(Gathered(Users(commonPrefixes, base), base, sub, listing)), limit)
  {
    var users := ListUsers(commonPrefixes, base);
    var items: seq<Item> := [];
    var u := 0;
    while u < |users|
      invariant 0 <= u <= |users|
      invariant items == Gathered(users[..u], base, sub, listing)
    {
      GatheredStep(users, u, base, sub, listing);
      var kept := KeepListed(listing(RecordFolder(base, users[u], sub)));
      items := items + kept;
      u := u + 1;
    }
    assert users[..u] == users;
    items := SortNewest(items);
    out := SliceTo(items, limit);
  }

  // --------------------------------------------------- first k decodable

  /** `max(k, 1)`: the break is tested after an append, so even k <= 0
      collects one. */
  function Quota(k: int): nat {
    if k >= 1 then k else 1
  }

  /** Every decodable candidate's audio, in candidate order. */
  function AllDecodable<A>(cands: seq<Item>, decode: string -> Option<seq<A>>): (r: seq<seq<A>>)
    ensures |r| <= |cands|
    ensures r == [] <==> forall k :: 0 <= k < |cands| ==> decode(cands[k].key).None?
  {
    if cands == [] then []
    else
      assert forall k :: 1 <= k < |cands| ==> cands[k] == cands[1..][k - 1];
      (match decode(cands[0].key) case Some(a) => [a] case None => []) + AllDecodable(cands[1..], decode)
  }

  /** The audio of the first `n` candidates that decode. */
  function FirstDecodable<A>(cands: seq<Item>, decode: string -> Option<seq<A>>, n: nat): (r: seq<seq<A>>)
    ensures |r| <= n
  {
    if cands == [] || n == 0 then []
    else match decode(cands[0].key)
      case Some(a) => [a] + FirstDecodable(cands[1..], decode, n - 1)
      case None => FirstDecodable(cands[1..], decode, n)
  }

  lemma TakeCons<T>(x: T, s: seq<T>, n: nat)
    requires n > 0
    ensures Take([x] + s, n) == [x] + Take(s, n - 1)
  {
    if |s| > n - 1 {
      assert ([x] + s)[..n] == [x] + s[..n - 1];
    }
  }

  /** The collection is the first `n` of all decodable candidates: failures
      are skipped and order is kept. */
  lemma {:induction false} FirstDecodableIsPrefix<A>(cands: seq<Item>, decode: string -> Option<seq<A>>, n: nat)
    ensures FirstDecodable(cands, decode, n) == Take(AllDecodable(cands, decode), n)
  {
    if cands != [] && n > 0 {
      var all := AllDecodable(cands[1..], decode);
      match decode(cands[0].key)
      case Some(a) =>
        FirstDecodableIsPrefix(cands[1..], decode, n - 1);
        TakeCons(a, all, n);
      case None =>
        FirstDecodableIsPrefix(cands[1..], decode, n);
    }
  }

  /** Nothing is collected exactly when no candidate decodes (n >= 1). */
  lemma {:induction false} NothingDecodableIff<A>(cands: seq<Item>, decode: string -> Option<seq<A>>, n: nat)
    requires n >= 1
    ensures FirstDecodable(cands, decode, n) == [] <==>
      forall k :: 0 <= k < |cands| ==> decode(cands[k].key).None?
  {
    if cands != [] {
      NothingDecodableIff(cands[1..], decode, n);
      if decode(cands[0].key).None? {
        assert forall k :: 1 <= k < |cands| ==> cands[k] == cands[1..][k - 1];
      }
    }
  }

  /** Trying candidate `i` with `m` still wanted: keep its audio if it decodes. */
  lemma FirstDecodableStep<A>(cands: seq<Item>, decode: string -> Option<seq<A>>, i: nat, m: nat)
    requires i < |cands| && m > 0
    ensures FirstDecodable(cands[i..], decode, m) == match decode(cands[i].key)
      case Some(a) => [a] + FirstDecodable(cands[i + 1..], decode, m - 1)
      case None => FirstDecodable(cands[i + 1..], decode, m)
  {
    assert cands[i..][0] == cands[i] && cands[i..][1..] == cands[i + 1..];
  }

  /** A candidate that decodes joins the collection. */
  lemma GatherKeeps<A>(cands: seq<Item>, decode: string -> Option<seq<A>>, i: nat, n: nat,
                       got: seq<seq<A>>, a: seq<A>)
    requires i < |cands| && |got| < n && decode(cands[i].key) == Some(a)
    requires got + FirstDecodable(cands[i..], decode, n - |got|) == FirstDecodable(cands, decode, n)
    ensures (got + [a]) + FirstDecodable(cands[i + 1..], decode, n - |got| - 1) == FirstDecodable(cands, decode, n)
  {
    FirstDecodableStep(cands, decode, i, n - |got|);
    var rest := FirstDecodable(cands[i + 1..], decode, n - |got| - 1);
    assert got + ([a] + rest) == (got + [a]) + rest;
  }

  /** A candidate that does not decode is skipped. */
  lemma GatherSkips<A>(cands: seq<Item>, decode: string -> Option<seq<A>>, i: nat, n: nat,
                       got: seq<seq<A>>)
    requires i < |cands| && |got| < n && decode(cands[i].key).None?
    requires got + FirstDecodable(cands[i..], decode, n - |got|) == FirstDecodable(cands, decode, n)
    ensures got + FirstDecodable(cands[i + 1..], decode, n - |got|) == FirstDecodable(cands, decode, n)
  {
    FirstDecodableStep(cands, decode, i, n - |got|);
  }

  /** How collection can fail. */
  datatype Failure = NoDecodableAudio

  /** The candidate loop of collect_last_k_decodable: try the candidates in
      order and stop once `max(k, 1)` have decoded. */
  method GatherDecodable<A>(cands: seq<Item>, decode: string -> Option<seq<A>>, k: int)
    returns (got: seq<seq<A>>)
    ensures got == FirstDecodable(cands, decode, Quota(k))
  {
    ghost var n := Quota(k);
    got := [];
    var i := 0;
    while i < |cands|
      invariant 0 <= i <= |cands|
      invariant |got| < n
      invariant got + FirstDecodable(cands[i..], decode, n - |got|) == FirstDecodable(cands, decode, n)
    {
      var raw := decode(cands[i].key);
      if raw.Some? {
        GatherKeeps(cands, decode, i, n, got, raw.value);
        got := got + [raw.value];
        if |got| >= k {
          return;
        }
      } else {
        GatherSkips(cands, decode, i, n, got);
      }
      i := i + 1;
    }
    assert FirstDecodable(cands[i..], decode, n - |got|) == [];
  }

  /** The join of collect_last_k_decodable: the pieces end to end. */
  method Join<A>(got: seq<seq<A>>) returns (merged: seq<A>)
    requires got != []
    ensures merged == Flatten(got)
  {
    merged := got[0];
    var j := 1;
    while j < |got|
      invariant 1 <= j <= |got|
      invariant merged + Flatten(got[j..]) == Flatten(got)
    {
      FlattenFrom(got, j);
      assert merged + (got[j] + Flatten(got[j + 1..])) == (merged + got[j]) + Flatten(got[j + 1..]);
      merged := merged + got[j];
      j := j + 1;
    }
    assert got[j..] == [];
  }

  /** collect_last_k_decodable: try the candidates in order, keep the first
      `max(k, 1)` that decode, join them end to end and preprocess the whole. */
  method CollectLastKDecodable<A>(cands: seq<Item>, decode: string -> Option<seq<A>>, k: int,
                                  preprocess: seq<A> -> seq<A>)
    returns (r: Result<seq<A>, Failure>)
    ensures FirstDecodable(cands, decode, Quota(k)) == [] ==> r == Err(NoDecodableAudio)
    ensures FirstDecodable(cands, decode, Quota(k)) != [] ==>
      r == Ok(preprocess(Flatten(FirstDecodable(cands, decode, Quota(k)))))
  {
    var got := GatherDecodable(cands, decode, k);
    if got == [] {
      return Err(NoDecodableAudio);
    }
    var merged := Join(got);
    r := Ok(preprocess(merged));
  }
}
