/**
 * The directory catalog of putv (media_dir.c): a catalog rooted at a URL that
 * numbers the mp3 files of a directory tree in walk order and keeps an
 * iterator chain, one frame per open directory, to resume from.
 * The tree is a snapshot given as a value: each directory's listing as scandir
 * with alphasort returns it.
 */
module MediaDir {
  import opened Wrappers

  /** The only MIME type the catalog recognises (mime_mp3). */
  datatype Mime = Mp3

  /** d_type of a directory entry; `readable` is false when scandir of the directory fails. */
  datatype Kind = Regular | Directory(readable: bool, items: seq<Entry>) | Special

  /** struct dirent. */
  datatype Entry = Entry(name: string, kind: Kind)

  /** media_dirlist_t: one open directory of the iterator chain and the entry it is at. */
  datatype Frame = Frame(path: string, items: seq<Entry>, index: nat)

  /** _find_mediaid_t: the media id looked for (-1 for all) and whether a callback was given. */
  datatype Query = Query(id: int, hasCb: bool)

  /** One invocation of the caller's callback: media id, file path, MIME type. */
  datatype Offer = Offer(id: int, path: string, mime: Mime)

  /** What one walk returns: `ret`, the final media id, the callbacks run, and the frames left open. */
  datatype Walked = Walked(ret: int, id: int, offered: seq<Offer>, rest: seq<Frame>)

  /** How a non-media regular file affects the running media id. */
  datatype Counting =
    | /** as written: counted whenever the last result was positive */ AsWritten
    | /** only media files are counted */ MediaOnly

  datatype MediaOption = Loop | Random | OtherOption

  const OptionLoop: bv32 := 0x0001
  const FileScheme: string := "file://"
  const SchemeMark: string := "://"

  // ---------------------------------------------------------------------------
  // Strings
  // ---------------------------------------------------------------------------

  /** `pat` occurs in `s` at position `k`. */
  predicate MatchAt(s: string, pat: string, k: nat)
  {
    k + |pat| <= |s| && s[k..k + |pat|] == pat
  }

  ghost predicate Occurs(s: string, pat: string)
  {
    exists k: nat :: MatchAt(s, pat, k)
  }

  /** strstr: the first position where `pat` occurs in `s`. */
  function FirstIndex(s: string, pat: string, from: nat): (r: Option<nat>)
    requires from <= |s|
    ensures r.Some? ==> from <= r.value && MatchAt(s, pat, r.value)
    ensures r.Some? ==> forall k: nat :: from <= k < r.value ==> !MatchAt(s, pat, k)
    ensures r.None? ==> forall k: nat :: from <= k ==> !MatchAt(s, pat, k)
    decreases |s| - from
  {
    if MatchAt(s, pat, from) then Some(from)
    else if from + |pat| >= |s| then None
    else FirstIndex(s, pat, from + 1)
  }

  /** strrchr: the last position of `c` in `s`. */
  function LastIndexOf(s: string, c: char): (r: Option<nat>)
    ensures r.Some? ==> r.value < |s| && s[r.value] == c
    ensures r.Some? ==> forall j :: r.value < j < |s| ==> s[j] != c
    ensures r.None? ==> forall j :: 0 <= j < |s| ==> s[j] != c
  {
    if |s| == 0 then None
    else if s[|s| - 1] == c then Some(|s| - 1)
    else LastIndexOf(s[..|s| - 1], c)
  }

  /** utils_getmime: the text from the last '.' decides; only ".mp3" is known. */
  function GetMime(path: string): (m: Option<Mime>)
    ensures m.Some? <==> EndsWithMp3(path)
  {
    match LastIndexOf(path, '.')
    case None =>
      assert EndsWithMp3(path) ==> path[|path| - 4] == '.';
      None
    case Some(k) =>
      LastDotSuffix(path, k);
      if path[k..] == ".mp3" then Some(Mp3) else None
  }

  predicate EndsWithMp3(path: string)
  {
    |path| >= 4 && path[|path| - 4..] == ".mp3"
  }

  /** From the last '.', the text is ".mp3" exactly when the path ends with ".mp3". */
  lemma LastDotSuffix(path: string, k: nat)
    requires k < |path| && path[k] == '.'
    requires forall j :: k < j < |path| ==> path[j] != '.'
    ensures path[k..] == ".mp3" <==> EndsWithMp3(path)
  {
    if EndsWithMp3(path) {
      assert path[|path| - 4] == '.' && path[|path| - 3] == 'm' && path[|path| - 2] == 'p' && path[|path| - 1] == '3';
      assert k == |path| - 4;
    }
  }

  /** "%s/%s": a directory path and an entry name. */
  function JoinPath(dir: string, name: string): string
  {
    dir + "/" + name
  }

  predicate Hidden(name: string)
  {
    |name| > 0 && name[0] == '.'
  }

  /**
   * The root path of a walk: a URL naming another scheme is rejected; otherwise
   * everything up to and including the first "file://" is dropped, then at most
   * one leading '/', and a single '/' is put in front.
   */
  function RootPath(url: string): (r: Option<string>)
    ensures r.None? <==> Occurs(url, SchemeMark) && !Occurs(url, FileScheme)
    ensures r.Some? ==> |r.value| > 0 && r.value[0] == '/'
  {
    var path :=
      match FirstIndex(url, FileScheme, 0)
      case Some(k) => Some(url[k + |FileScheme|..])
      case None => if FirstIndex(url, SchemeMark, 0).Some? then None else Some(url);
    match path
    case None => None
    case Some(p) => Some("/" + (if |p| > 0 && p[0] == '/' then p[1..] else p))
  }

  /** Every "file://" contains a "://". */
  lemma FileSchemeHasMark(s: string)
    ensures Occurs(s, FileScheme) ==> Occurs(s, SchemeMark)
  {
    if Occurs(s, FileScheme) {
      var k: nat :| MatchAt(s, FileScheme, k);
      assert s[k + 4..k + 7] == s[k..k + 7][4..7];
      assert MatchAt(s, SchemeMark, k + 4);
    }
  }

  lemma FirstCharMismatch(s: string, pat: string, k: nat)
    requires |pat| > 0 && k < |s| && s[k] != pat[0]
    ensures !MatchAt(s, pat, k)
  {
    if k + |pat| <= |s| {
      assert s[k..k + |pat|][0] == s[k];
    }
  }

  /** A plain absolute path is its own root. */
  lemma PlainRoot(url: string)
    requires !Occurs(url, SchemeMark)
    requires |url| > 0 && url[0] == '/'
    ensures RootPath(url) == Some(url)
  {
    FileSchemeHasMark(url);
    assert "/" + url[1..] == url;
  }

  /** A file URL names the path after its scheme, with exactly one leading '/'. */
  lemma FileUrlRoot(p: string)
    ensures RootPath(FileScheme + p) == Some("/" + (if |p| > 0 && p[0] == '/' then p[1..] else p))
  {
    assert MatchAt(FileScheme + p, FileScheme, 0) by {
      assert (FileScheme + p)[0..7] == FileScheme;
    }
    assert (FileScheme + p)[7..] == p;
  }

  /** The scheme need not be a prefix: the text before the first "file://" is discarded. */
  lemma EmbeddedFileScheme()
    ensures RootPath("dir/file:///music") == Some("/music")
  {
    var url := "dir/file:///music";
    assert MatchAt(url, FileScheme, 4) by {
      assert url[4..11] == FileScheme;
    }
    FirstCharMismatch(url, FileScheme, 0);
    FirstCharMismatch(url, FileScheme, 1);
    FirstCharMismatch(url, FileScheme, 2);
    FirstCharMismatch(url, FileScheme, 3);
    assert FirstIndex(url, FileScheme, 0) == Some(4);
    var rest := url[11..];
    assert rest == "/music" && rest[0] == '/';
    assert "/" + rest[1..] == "/music";
  }

  // ---------------------------------------------------------------------------
  // The walk (_find and _find_mediaid)
  // ---------------------------------------------------------------------------

  /** _find_mediaid's result: 0 on the media id looked for, 1 for every other file. */
  function MatchMediaId(q: Query, mediaid: int): (ret: int)
    ensures ret == 0 <==> q.id >= 0 && q.id == mediaid
    ensures ret == 0 || ret == 1
  {
    if q.id >= 0 && q.id == mediaid then 0 else 1
  }

  /** Whether _find_mediaid passes the file to the caller's callback. */
  predicate Invokes(q: Query, mediaid: int)
    ensures Invokes(q, mediaid) <==> q.hasCb && (MatchMediaId(q, mediaid) == 0 || q.id == -1)
  {
    q.hasCb && ((q.id >= 0 && q.id == mediaid) || q.id == -1)
  }

  function Prepend(offered: seq<Offer>, w: Walked): Walked
  {
    w.(offered := offered + w.offered)
  }

  /**
   * The walk of one directory from entry `i`, with `ret` the last result and
   * `id` the running media id: hidden entries are skipped, media files are
   * offered to _find_mediaid, readable non-empty directories are walked
   * recursively (with a fresh result of -1), and the walk stops at the first
   * result 0, keeping the frames from this directory down to the matched file.
   * `rest` is empty when the directory was walked to its end.
   */
  function Visit(path: string, items: seq<Entry>, i: nat, ret: int, id: int, q: Query, c: Counting): (w: Walked)
    requires i <= |items|
    ensures w.id >= id
    decreases items, |items| - i
  {
    if i == |items| then Walked(ret, id, [], [])
    else
      var e := items[i];
      if Hidden(e.name) then Visit(path, items, i + 1, ret, id, q, c)
      else match e.kind
        case Regular =>
          var p := JoinPath(path, e.name);
          var m := GetMime(p);
          var r := if m.Some? then MatchMediaId(q, id) else ret;
          var next := if r > 0 && (m.Some? || c == AsWritten) then id + 1 else id;
          var off := if m.Some? && Invokes(q, id) then [Offer(id, p, m.value)] else [];
          if r == 0 then Walked(0, next, off, [Frame(path, items, i)])
          else Prepend(off, Visit(path, items, i + 1, r, next, q, c))
        case Directory(readable, sub) =>
          if readable && |sub| > 0 then
            assert e in items;
            var inner := Visit(JoinPath(path, e.name), sub, 0, -1, id, q, c);
            if inner.ret == 0 then Walked(0, inner.id, inner.offered, [Frame(path, items, i)] + inner.rest)
            else Prepend(inner.offered, Visit(path, items, i + 1, inner.ret, inner.id, q, c))
          else Visit(path, items, i + 1, ret, id, q, c)
        case Special => Visit(path, items, i + 1, ret, id, q, c)
  }

  /** The paths of the media files a walk from entry `i` reaches, in walk order. */
  function MediaFrom(path: string, items: seq<Entry>, i: nat): seq<string>
    requires i <= |items|
    decreases items, |items| - i
  {
    if i == |items| then []
    else
      var e := items[i];
      if Hidden(e.name) then MediaFrom(path, items, i + 1)
      else match e.kind
        case Regular =>
          var p := JoinPath(path, e.name);
          (if GetMime(p).Some? then [p] else []) + MediaFrom(path, items, i + 1)
        case Directory(readable, sub) =>
          if readable && |sub| > 0 then
            assert e in items;
            MediaFrom(JoinPath(path, e.name), sub, 0) + MediaFrom(path, items, i + 1)
          else MediaFrom(path, items, i + 1)
        case Special => MediaFrom(path, items, i + 1)
  }

  /** The callbacks of a listing: every path with consecutive media ids from `id`. */
  function Numbered(paths: seq<string>, id: int): (offers: seq<Offer>)
    ensures |offers| == |paths|
    ensures forall k :: 0 <= k < |paths| ==> offers[k] == Offer(id + k, paths[k], Mp3)
  {
    if paths == [] then [] else [Offer(id, paths[0], Mp3)] + Numbered(paths[1..], id + 1)
  }

  lemma NumberedAppend(a: seq<string>, b: seq<string>, id: int)
    ensures Numbered(a + b, id) == Numbered(a, id) + Numbered(b, id + |a|)
  {
    assert |Numbered(a + b, id)| == |Numbered(a, id) + Numbered(b, id + |a|)|;
    forall k | 0 <= k < |a| + |b|
      ensures Numbered(a + b, id)[k] == (Numbered(a, id) + Numbered(b, id + |a|))[k]
    {
      if k >= |a| {
        assert (a + b)[k] == b[k - |a|];
      }
    }
  }

  /** The path of the entry the deepest frame is at, when there is one. */
  function Current(chain: seq<Frame>): Option<string>
  {
    if chain == [] then None
    else
      var f := chain[|chain| - 1];
      if f.index < |f.items| then Some(JoinPath(f.path, f.items[f.index].name)) else None
  }

  /**
   * A walk `w` from media id `id` over the media files `m`, numbered `id`,
   * `id + 1`, ...: looking for one of those numbers stops on that file, having
   * run the callback only there; any other search walks to the end, and a
   * listing (-1) runs the callback on every file with its number.
   */
  ghost predicate NumbersFrom(m: seq<string>, w: Walked, id: int, q: Query)
  {
    if id <= q.id < id + |m| then
      w.ret == 0 && w.id == q.id && Current(w.rest) == Some(m[q.id - id]) &&
      w.offered == (if q.hasCb then [Offer(q.id, m[q.id - id], Mp3)] else [])
    else
      w.ret != 0 && w.id == id + |m| && w.rest == [] &&
      w.offered == (if q.id == -1 && q.hasCb then Numbered(m, id) else [])
  }

  /** A media file numbered `id` that is not the one looked for, followed by a numbered walk. */
  lemma NumbersCons(p: string, m: seq<string>, w: Walked, id: int, q: Query)
    requires NumbersFrom(m, w, id + 1, q) && q.id != id && id >= 0
    ensures NumbersFrom([p] + m, Prepend(if q.id == -1 && q.hasCb then [Offer(id, p, Mp3)] else [], w), id, q)
  {
    if id <= q.id < id + 1 + |m| {
      assert ([p] + m)[q.id - id] == m[q.id - id - 1];
    }
    if q.id == -1 && q.hasCb {
      assert Numbered([p] + m, id) == [Offer(id, p, Mp3)] + Numbered(m, id + 1);
    }
  }

  /** A numbered subdirectory walk that stops, seen from its parent. */
  lemma NumbersStopBelow(s: seq<string>, m: seq<string>, inner: Walked, top: Frame, id: int, q: Query)
    requires NumbersFrom(s, inner, id, q) && inner.ret == 0
    ensures NumbersFrom(s + m, Walked(0, inner.id, inner.offered, [top] + inner.rest), id, q)
  {
    assert (s + m)[q.id - id] == s[q.id - id];
    assert ([top] + inner.rest)[|inner.rest|] == inner.rest[|inner.rest| - 1];
  }

  /** A numbered subdirectory walk that runs to its end, followed by a numbered walk. */
  lemma NumbersAfterBelow(s: seq<string>, m: seq<string>, inner: Walked, w: Walked, id: int, q: Query)
    requires NumbersFrom(s, inner, id, q) && inner.ret != 0 && id >= 0
    requires NumbersFrom(m, w, inner.id, q)
    ensures NumbersFrom(s + m, Prepend(inner.offered, w), id, q)
  {
    assert !(id <= q.id < id + |s|);
    if id + |s| <= q.id < id + |s| + |m| {
      NumbersFoundAfter(s, m, inner, w, id, q);
    } else if q.id == -1 && q.hasCb {
      NumbersListedAfter(s, m, inner, w, id, q);
    } else {
      NumbersMissedAfter(s, m, inner, w, id, q);
    }
  }

  /** NumbersAfterBelow when the file looked for is in the rest of the directory. */
  lemma NumbersFoundAfter(s: seq<string>, m: seq<string>, inner: Walked, w: Walked, id: int, q: Query)
    requires !(id <= q.id < id + |s|) && inner.ret != 0 && inner.id == id + |s| && inner.offered == []
    requires NumbersFrom(m, w, inner.id, q) && id + |s| <= q.id < id + |s| + |m|
    ensures NumbersFrom(s + m, Prepend(inner.offered, w), id, q)
  {
    assert (s + m)[q.id - id] == m[q.id - id - |s|];
  }

  /** NumbersAfterBelow for a listing: the two numbered runs join. */
  lemma NumbersListedAfter(s: seq<string>, m: seq<string>, inner: Walked, w: Walked, id: int, q: Query)
    requires inner.ret != 0 && inner.id == id + |s| && inner.offered == Numbered(s, id) && q.id == -1 && q.hasCb && id >= 0
    requires NumbersFrom(m, w, inner.id, q)
    ensures NumbersFrom(s + m, Prepend(inner.offered, w), id, q)
  {
    assert !(id <= q.id < id + |s + m|);
    assert w.offered == Numbered(m, id + |s|);
    NumberedAppend(s, m, id);
  }

  /** NumbersAfterBelow when no file of either part is looked for and no listing is made. */
  lemma NumbersMissedAfter(s: seq<string>, m: seq<string>, inner: Walked, w: Walked, id: int, q: Query)
    requires !(id <= q.id < id + |s| + |m|) && !(q.id == -1 && q.hasCb)
    requires inner.ret != 0 && inner.id == id + |s| && inner.offered == []
    requires NumbersFrom(m, w, inner.id, q)
    ensures NumbersFrom(s + m, Prepend(inner.offered, w), id, q)
  {
  }

  /** The entry at `i` holds no media file the walk would count or descend into. */
  predicate Passed(path: string, e: Entry)
  {
    Hidden(e.name) || e.kind.Special? ||
    (e.kind.Directory? && !(e.kind.readable && |e.kind.items| > 0)) ||
    (e.kind.Regular? && GetMime(JoinPath(path, e.name)).None?)
  }

  /** An entry the walk passes over changes neither the numbering nor the walk. */
  lemma NumbersPassed(path: string, items: seq<Entry>, i: nat, ret: int, id: int, q: Query)
    requires i < |items| && Passed(path, items[i]) && ret != 0
    requires NumbersFrom(MediaFrom(path, items, i + 1), Visit(path, items, i + 1, ret, id, q, MediaOnly), id, q)
    ensures NumbersFrom(MediaFrom(path, items, i), Visit(path, items, i, ret, id, q, MediaOnly), id, q)
  {
    var rest := Visit(path, items, i + 1, ret, id, q, MediaOnly);
    assert [] + rest.offered == rest.offered;
    assert Visit(path, items, i, ret, id, q, MediaOnly) == rest;
    assert MediaFrom(path, items, i) == MediaFrom(path, items, i + 1);
  }

  /** A media file that is not the one looked for takes the number `id`. */
  lemma NumbersMedia(path: string, items: seq<Entry>, i: nat, ret: int, id: int, q: Query)
    requires i < |items| && !Hidden(items[i].name) && AtMedia(Frame(path, items, i)) && q.id != id && id >= 0
    requires NumbersFrom(MediaFrom(path, items, i + 1), Visit(path, items, i + 1, 1, id + 1, q, MediaOnly), id + 1, q)
    ensures NumbersFrom(MediaFrom(path, items, i), Visit(path, items, i, ret, id, q, MediaOnly), id, q)
  {
    var p := JoinPath(path, items[i].name);
    var rest := Visit(path, items, i + 1, 1, id + 1, q, MediaOnly);
    assert Visit(path, items, i, ret, id, q, MediaOnly) == Prepend(if q.id == -1 && q.hasCb then [Offer(id, p, Mp3)] else [], rest);
    assert MediaFrom(path, items, i) == [p] + MediaFrom(path, items, i + 1);
    NumbersCons(p, MediaFrom(path, items, i + 1), rest, id, q);
  }

  /** The media file numbered `id`, when `id` is looked for, is where the walk stops. */
  lemma NumbersFound(path: string, items: seq<Entry>, i: nat, ret: int, id: int, q: Query)
    requires i < |items| && !Hidden(items[i].name) && AtMedia(Frame(path, items, i)) && q.id == id && id >= 0
    ensures NumbersFrom(MediaFrom(path, items, i), Visit(path, items, i, ret, id, q, MediaOnly), id, q)
  {
    var p := JoinPath(path, items[i].name);
    assert Visit(path, items, i, ret, id, q, MediaOnly) == Walked(0, id, if q.hasCb then [Offer(id, p, Mp3)] else [], [Frame(path, items, i)]);
    assert MediaFrom(path, items, i) == [p] + MediaFrom(path, items, i + 1);
  }

  /** A readable, non-empty subdirectory at entry `i`: its walk, then the rest of the directory unless it stopped. */
  lemma VisitDirectory(path: string, items: seq<Entry>, i: nat, ret: int, id: int, q: Query, c: Counting)
    requires i < |items| && !Hidden(items[i].name) && items[i].kind.Directory? && items[i].kind.readable && |items[i].kind.items| > 0
    ensures var sp := JoinPath(path, items[i].name);
            var inner := Visit(sp, items[i].kind.items, 0, -1, id, q, c);
            Visit(path, items, i, ret, id, q, c)
              == (if inner.ret == 0 then Walked(0, inner.id, inner.offered, [Frame(path, items, i)] + inner.rest)
                  else Prepend(inner.offered, Visit(path, items, i + 1, inner.ret, inner.id, q, c))) &&
            MediaFrom(path, items, i) == MediaFrom(sp, items[i].kind.items, 0) + MediaFrom(path, items, i + 1)
  {
  }

  /** A numbered subdirectory walk that stops there, seen from the directory. */
  lemma NumbersDirectoryStop(path: string, items: seq<Entry>, i: nat, ret: int, id: int, q: Query, inner: Walked)
    requires i < |items| && !Hidden(items[i].name) && items[i].kind.Directory? && items[i].kind.readable && |items[i].kind.items| > 0
    requires inner == Visit(JoinPath(path, items[i].name), items[i].kind.items, 0, -1, id, q, MediaOnly)
    requires NumbersFrom(MediaFrom(JoinPath(path, items[i].name), items[i].kind.items, 0), inner, id, q) && inner.ret == 0
    ensures NumbersFrom(MediaFrom(path, items, i), Visit(path, items, i, ret, id, q, MediaOnly), id, q)
  {
    var s := MediaFrom(JoinPath(path, items[i].name), items[i].kind.items, 0);
    assert Visit(path, items, i, ret, id, q, MediaOnly) == Walked(0, inner.id, inner.offered, [Frame(path, items, i)] + inner.rest) &&
           MediaFrom(path, items, i) == s + MediaFrom(path, items, i + 1) by {
      VisitDirectory(path, items, i, ret, id, q, MediaOnly);
    }
    NumbersStopBelow(s, MediaFrom(path, items, i + 1), inner, Frame(path, items, i), id, q);
  }

  /** A numbered subdirectory walk that runs to its end, followed by the numbered rest of the directory. */
  lemma NumbersDirectoryOn(path: string, items: seq<Entry>, i: nat, ret: int, id: int, q: Query, inner: Walked)
    requires i < |items| && !Hidden(items[i].name) && items[i].kind.Directory? && items[i].kind.readable && |items[i].kind.items| > 0 && id >= 0
    requires inner == Visit(JoinPath(path, items[i].name), items[i].kind.items, 0, -1, id, q, MediaOnly)
    requires NumbersFrom(MediaFrom(JoinPath(path, items[i].name), items[i].kind.items, 0), inner, id, q) && inner.ret != 0
    requires NumbersFrom(MediaFrom(path, items, i + 1), Visit(path, items, i + 1, inner.ret, inner.id, q, MediaOnly), inner.id, q)
    ensures NumbersFrom(MediaFrom(path, items, i), Visit(path, items, i, ret, id, q, MediaOnly), id, q)
  {
    var s := MediaFrom(JoinPath(path, items[i].name), items[i].kind.items, 0);
    var rest := Visit(path, items, i + 1, inner.ret, inner.id, q, MediaOnly);
    assert Visit(path, items, i, ret, id, q, MediaOnly) == Prepend(inner.offered, rest) &&
           MediaFrom(path, items, i) == s + MediaFrom(path, items, i + 1) by {
      VisitDirectory(path, items, i, ret, id, q, MediaOnly);
    }
    NumbersAfterBelow(s, MediaFrom(path, items, i + 1), inner, rest, id, q);
  }

  /**
   * With only media files counted, a walk from media id `id` numbers the media
   * files it reaches `id`, `id + 1`, ... in walk order (see NumbersFrom).
   */
  lemma {:induction false} MediaOnlyNumbering(path: string, items: seq<Entry>, i: nat, ret: int, id: int, q: Query)
    requires i <= |items| && ret != 0 && id >= 0
    ensures NumbersFrom(MediaFrom(path, items, i), Visit(path, items, i, ret, id, q, MediaOnly), id, q)
    decreases items, |items| - i
  {
    if i == |items| {
      return;
    }
    var e := items[i];
    if Passed(path, e) {
      MediaOnlyNumbering(path, items, i + 1, ret, id, q);
      NumbersPassed(path, items, i, ret, id, q);
    } else if e.kind.Regular? {
      if q.id != id {
        MediaOnlyNumbering(path, items, i + 1, 1, id + 1, q);
        NumbersMedia(path, items, i, ret, id, q);
      } else {
        NumbersFound(path, items, i, ret, id, q);
      }
    } else {
      assert e in items;
      var sp := JoinPath(path, e.name);
      MediaOnlyNumbering(sp, e.kind.items, 0, -1, id, q);
      var inner := Visit(sp, e.kind.items, 0, -1, id, q, MediaOnly);
      if inner.ret != 0 {
        assert inner.id == id + |MediaFrom(sp, e.kind.items, 0)|;
        MediaOnlyNumbering(path, items, i + 1, inner.ret, inner.id, q);
        NumbersDirectoryOn(path, items, i, ret, id, q, inner);
      } else {
        NumbersDirectoryStop(path, items, i, ret, id, q, inner);
      }
    }
  }

  /** Frame `g` is the listing of the readable directory frame `f` is at. */
  predicate Opens(f: Frame, g: Frame)
  {
    f.index < |f.items| && f.items[f.index].kind.Directory? && f.items[f.index].kind.readable &&
    g.items == f.items[f.index].kind.items && g.path == JoinPath(f.path, f.items[f.index].name)
  }

  /** An iterator chain: every frame is at one of its entries, and each opens the next. */
  ghost predicate Linked(chain: seq<Frame>)
  {
    (forall k :: 0 <= k < |chain| ==> chain[k].index < |chain[k].items|) &&
    (forall k :: 0 <= k < |chain| - 1 ==> Opens(chain[k], chain[k + 1]))
  }

  /** The frame is at a media file. */
  predicate AtMedia(f: Frame)
  {
    f.index < |f.items| && f.items[f.index].kind.Regular? &&
    GetMime(JoinPath(f.path, f.items[f.index].name)).Some?
  }

  /**
   * The shape of a walk's result: it stops (result 0) exactly when it leaves
   * frames open, and then they form a chain from the walked directory, at or
   * after entry `i`, down to a media file.
   */
  ghost predicate Shaped(w: Walked, path: string, items: seq<Entry>, i: nat)
  {
    (w.ret == 0 <==> w.rest != []) &&
    (w.rest != [] ==>
      Linked(w.rest) && AtMedia(w.rest[|w.rest| - 1]) &&
      w.rest[0].path == path && w.rest[0].items == items && i <= w.rest[0].index)
  }

  lemma LinkedCons(f: Frame, chain: seq<Frame>)
    requires Linked(chain) && chain != [] && Opens(f, chain[0])
    ensures Linked([f] + chain)
  {
    var c := [f] + chain;
    forall k | 0 <= k < |c| - 1
      ensures Opens(c[k], c[k + 1])
    {
      if k > 0 {
        assert c[k] == chain[k - 1] && c[k + 1] == chain[k];
      }
    }
  }

  /** Whatever precedes a shaped walk in the same directory keeps it shaped, with or without offers before it. */
  lemma ShapedPrepend(off: seq<Offer>, w: Walked, path: string, items: seq<Entry>, i: nat)
    requires Shaped(w, path, items, i + 1)
    ensures Shaped(Prepend(off, w), path, items, i)
  {
  }

  /** A walk that stops at the media file of entry `i`. */
  lemma ShapedHere(w: Walked, path: string, items: seq<Entry>, i: nat)
    requires w.ret == 0 && w.rest == [Frame(path, items, i)] && AtMedia(Frame(path, items, i))
    ensures Shaped(w, path, items, i)
  {
  }

  /** A walk that stops inside the subdirectory of entry `i`. */
  lemma ShapedBelow(inner: Walked, path: string, items: seq<Entry>, i: nat)
    requires i < |items| && items[i].kind.Directory? && items[i].kind.readable
    requires Shaped(inner, JoinPath(path, items[i].name), items[i].kind.items, 0) && inner.ret == 0
    ensures Shaped(Walked(0, inner.id, inner.offered, [Frame(path, items, i)] + inner.rest), path, items, i)
  {
    LinkedCons(Frame(path, items, i), inner.rest);
    assert ([Frame(path, items, i)] + inner.rest)[|inner.rest|] == inner.rest[|inner.rest| - 1];
  }

  /** A walk that starts without a result of 0 leaves a well-formed chain, whatever the counting. */
  lemma {:induction false} VisitShape(path: string, items: seq<Entry>, i: nat, ret: int, id: int, q: Query, c: Counting)
    requires i <= |items| && ret != 0
    ensures Shaped(Visit(path, items, i, ret, id, q, c), path, items, i)
    decreases items, |items| - i
  {
    if i == |items| {
      return;
    }
    var e := items[i];
    var w := Visit(path, items, i, ret, id, q, c);
    if Hidden(e.name) || e.kind.Special? || (e.kind.Directory? && !(e.kind.readable && |e.kind.items| > 0)) {
      assert w == Prepend([], Visit(path, items, i + 1, ret, id, q, c));
      VisitShape(path, items, i + 1, ret, id, q, c);
      ShapedPrepend([], Visit(path, items, i + 1, ret, id, q, c), path, items, i);
    } else if e.kind.Regular? {
      var p := JoinPath(path, e.name);
      var m := GetMime(p);
      var r := if m.Some? then MatchMediaId(q, id) else ret;
      var next := if r > 0 && (m.Some? || c == AsWritten) then id + 1 else id;
      var off := if m.Some? && Invokes(q, id) then [Offer(id, p, m.value)] else [];
      if r == 0 {
        assert w == Walked(0, next, off, [Frame(path, items, i)]);
        ShapedHere(w, path, items, i);
      } else {
        assert w == Prepend(off, Visit(path, items, i + 1, r, next, q, c));
        VisitShape(path, items, i + 1, r, next, q, c);
        ShapedPrepend(off, Visit(path, items, i + 1, r, next, q, c), path, items, i);
      }
    } else {
      assert e in items;
      var sp := JoinPath(path, e.name);
      var inner := Visit(sp, e.kind.items, 0, -1, id, q, c);
      VisitShape(sp, e.kind.items, 0, -1, id, q, c);
      if inner.ret == 0 {
        assert w == Walked(0, inner.id, inner.offered, [Frame(path, items, i)] + inner.rest);
        ShapedBelow(inner, path, items, i);
      } else {
        assert w == Prepend(inner.offered, Visit(path, items, i + 1, inner.ret, inner.id, q, c));
        VisitShape(path, items, i + 1, inner.ret, inner.id, q, c);
        ShapedPrepend(inner.offered, Visit(path, items, i + 1, inner.ret, inner.id, q, c), path, items, i);
      }
    }
  }

  /**
   * Resuming at the media file numbered `id` and looking for `id + 1`, with
   * only media files counted, stops on the next media file of the walk, or
   * walks to the end when there is none.
   */
  lemma NextFindsFollowing(path: string, items: seq<Entry>, k: nat, id: int)
    requires k < |items| && !Hidden(items[k].name) && AtMedia(Frame(path, items, k)) && id >= 0
    ensures var m := MediaFrom(path, items, k);
            var w := Visit(path, items, k, -1, id, Query(id + 1, false), MediaOnly);
            |m| > 0 && m[0] == JoinPath(path, items[k].name) &&
            (|m| > 1 ==> w.ret == 0 && w.id == id + 1 && Current(w.rest) == Some(m[1])) &&
            (|m| == 1 ==> w.ret != 0 && w.rest == [])
  {
    MediaOnlyNumbering(path, items, k, -1, id, Query(id + 1, false));
  }

  // ---------------------------------------------------------------------------
  // A find agrees with the listing, whatever the counting
  // ---------------------------------------------------------------------------

  /** The position of the first callback of `offers` with media id `k`, if any. */
  function IdIndex(offers: seq<Offer>, k: int): (r: Option<nat>)
    ensures r.Some? ==> r.value < |offers| && offers[r.value].id == k
    ensures r.Some? ==> forall j :: 0 <= j < r.value ==> offers[j].id != k
    ensures r.None? ==> forall j :: 0 <= j < |offers| ==> offers[j].id != k
  {
    if offers == [] then None
    else if offers[0].id == k then Some(0)
    else match IdIndex(offers[1..], k)
      case Some(j) => Some(j + 1)
      case None => None
  }

  /** The first callback with id `k` in `a + b` is the first in `a`, or else the first in `b`. */
  lemma {:induction false} IdIndexAppend(a: seq<Offer>, b: seq<Offer>, k: int)
    ensures IdIndex(a + b, k) ==
            if IdIndex(a, k).Some? then IdIndex(a, k)
            else if IdIndex(b, k).Some? then Some(|a| + IdIndex(b, k).value)
            else None
  {
    if a == [] {
      assert a + b == b;
    } else {
      assert (a + b)[0] == a[0] && (a + b)[1..] == a[1..] + b;
      IdIndexAppend(a[1..], b, k);
    }
  }

  /**
   * A walk `w` looking for media id `k` against the listing walk `lw` over the
   * same entries from the same state: the listing never stops; when it offers
   * id `k`, the find stops on the first file it offered under that id, having
   * run the callback only there, and otherwise the find walks to the end with
   * the listing's result and final id, running no callback.
   */
  ghost predicate FindsAsListed(lw: Walked, w: Walked, k: int, hasCb: bool)
  {
    lw.ret != 0 && lw.rest == [] &&
    match IdIndex(lw.offered, k)
      case Some(j) =>
        w.ret == 0 && w.id == k && Current(w.rest) == Some(lw.offered[j].path) &&
        w.offered == (if hasCb then [lw.offered[j]] else [])
      case None =>
        w.ret == lw.ret && w.id == lw.id && w.rest == [] && w.offered == []
  }

  /** A listed callback that does not carry id `k`, followed by agreeing walks. */
  lemma FindsAsListedCons(o: Offer, lw: Walked, w: Walked, k: int, hasCb: bool)
    requires FindsAsListed(lw, w, k, hasCb) && o.id != k
    ensures FindsAsListed(Prepend([o], lw), w, k, hasCb)
  {
    IdIndexAppend([o], lw.offered, k);
    assert IdIndex([o], k) == None;
  }

  /** A subdirectory whose find stops, seen from its parent. */
  lemma FindsAsListedBelow(li: Walked, wi: Walked, lw: Walked, top: Frame, k: int, hasCb: bool)
    requires FindsAsListed(li, wi, k, hasCb) && IdIndex(li.offered, k).Some? && lw.ret != 0 && lw.rest == []
    ensures FindsAsListed(Prepend(li.offered, lw), Walked(0, wi.id, wi.offered, [top] + wi.rest), k, hasCb)
  {
    IdIndexAppend(li.offered, lw.offered, k);
    assert wi.rest != [];
    assert ([top] + wi.rest)[|wi.rest|] == wi.rest[|wi.rest| - 1];
  }

  /** A subdirectory the find walks to its end, followed by agreeing walks of the rest. */
  lemma FindsAsListedAfter(li: Walked, wi: Walked, lw: Walked, w: Walked, k: int, hasCb: bool)
    requires FindsAsListed(li, wi, k, hasCb) && IdIndex(li.offered, k).None?
    requires FindsAsListed(lw, w, k, hasCb)
    ensures FindsAsListed(Prepend(li.offered, lw), Prepend(wi.offered, w), k, hasCb)
  {
    IdIndexAppend(li.offered, lw.offered, k);
    assert [] + w.offered == w.offered;
    match IdIndex(lw.offered, k)
      case Some(j) =>
        assert (li.offered + lw.offered)[|li.offered| + j] == lw.offered[j];
      case None =>
  }

  /** The media file the listing numbers `k` is where a find for `k` stops. */
  lemma FindsAsListedHere(path: string, items: seq<Entry>, i: nat, ret: int, id: int, hasCb: bool, c: Counting)
    requires i < |items| && !Hidden(items[i].name) && AtMedia(Frame(path, items, i)) && ret != 0 && id >= 0
    requires Visit(path, items, i + 1, 1, id + 1, Query(-1, true), c).ret != 0 && Visit(path, items, i + 1, 1, id + 1, Query(-1, true), c).rest == []
    ensures FindsAsListed(Visit(path, items, i, ret, id, Query(-1, true), c), Visit(path, items, i, ret, id, Query(id, hasCb), c), id, hasCb)
  {
    var p := JoinPath(path, items[i].name);
    var o := Offer(id, p, Mp3);
    var rest := Visit(path, items, i + 1, 1, id + 1, Query(-1, true), c);
    assert Visit(path, items, i, ret, id, Query(-1, true), c) == Prepend([o], rest);
    assert Visit(path, items, i, ret, id, Query(id, hasCb), c) == Walked(0, id, if hasCb then [o] else [], [Frame(path, items, i)]);
    IdIndexAppend([o], rest.offered, id);
  }

  /** The running media id after an entry the walk passes over: as written, a non-media file after a positive result takes a number. */
  function PassedId(e: Entry, ret: int, id: int, c: Counting): int
  {
    if e.kind.Regular? && !Hidden(e.name) && ret > 0 && c == AsWritten then id + 1 else id
  }

  /** An entry both walks pass over without a callback, from the same result and id. */
  lemma FindsAsListedPassed(path: string, items: seq<Entry>, i: nat, ret: int, id: int, k: int, hasCb: bool, c: Counting)
    requires i < |items| && Passed(path, items[i]) && ret != 0
    requires var next := PassedId(items[i], ret, id, c);
             FindsAsListed(Visit(path, items, i + 1, ret, next, Query(-1, true), c), Visit(path, items, i + 1, ret, next, Query(k, hasCb), c), k, hasCb)
    ensures FindsAsListed(Visit(path, items, i, ret, id, Query(-1, true), c), Visit(path, items, i, ret, id, Query(k, hasCb), c), k, hasCb)
  {
    var next := PassedId(items[i], ret, id, c);
    var lw, w := Visit(path, items, i + 1, ret, next, Query(-1, true), c), Visit(path, items, i + 1, ret, next, Query(k, hasCb), c);
    assert [] + lw.offered == lw.offered && [] + w.offered == w.offered;
    assert Visit(path, items, i, ret, id, Query(-1, true), c) == Prepend([], lw);
    assert Visit(path, items, i, ret, id, Query(k, hasCb), c) == Prepend([], w);
  }

  /** A media file numbered other than `k`: only the listing runs the callback on it. */
  lemma FindsAsListedMedia(path: string, items: seq<Entry>, i: nat, ret: int, id: int, k: int, hasCb: bool, c: Counting)
    requires i < |items| && !Hidden(items[i].name) && AtMedia(Frame(path, items, i)) && ret != 0 && k >= 0 && id != k
    requires FindsAsListed(Visit(path, items, i + 1, 1, id + 1, Query(-1, true), c), Visit(path, items, i + 1, 1, id + 1, Query(k, hasCb), c), k, hasCb)
    ensures FindsAsListed(Visit(path, items, i, ret, id, Query(-1, true), c), Visit(path, items, i, ret, id, Query(k, hasCb), c), k, hasCb)
  {
    var o := Offer(id, JoinPath(path, items[i].name), Mp3);
    var lw, w := Visit(path, items, i + 1, 1, id + 1, Query(-1, true), c), Visit(path, items, i + 1, 1, id + 1, Query(k, hasCb), c);
    assert [] + w.offered == w.offered;
    assert Visit(path, items, i, ret, id, Query(-1, true), c) == Prepend([o], lw);
    assert Visit(path, items, i, ret, id, Query(k, hasCb), c) == Prepend([], w);
    FindsAsListedCons(o, lw, w, k, hasCb);
  }

  /** A walkable subdirectory: both walks descend from the same id and go on from the same result. */
  lemma FindsAsListedDirectory(path: string, items: seq<Entry>, i: nat, ret: int, id: int, k: int, hasCb: bool, c: Counting)
    requires i < |items| && !Hidden(items[i].name) && items[i].kind.Directory? && items[i].kind.readable && |items[i].kind.items| > 0
    requires var sp := JoinPath(path, items[i].name);
             FindsAsListed(Visit(sp, items[i].kind.items, 0, -1, id, Query(-1, true), c), Visit(sp, items[i].kind.items, 0, -1, id, Query(k, hasCb), c), k, hasCb)
    requires var li := Visit(JoinPath(path, items[i].name), items[i].kind.items, 0, -1, id, Query(-1, true), c);
             FindsAsListed(Visit(path, items, i + 1, li.ret, li.id, Query(-1, true), c), Visit(path, items, i + 1, li.ret, li.id, Query(k, hasCb), c), k, hasCb)
    ensures FindsAsListed(Visit(path, items, i, ret, id, Query(-1, true), c), Visit(path, items, i, ret, id, Query(k, hasCb), c), k, hasCb)
  {
    var e := items[i];
    assert e in items;
    var sp := JoinPath(path, e.name);
    var all, one := Query(-1, true), Query(k, hasCb);
    var li, wi := Visit(sp, e.kind.items, 0, -1, id, all, c), Visit(sp, e.kind.items, 0, -1, id, one, c);
    var lw := Visit(path, items, i + 1, li.ret, li.id, all, c);
    assert Visit(path, items, i, ret, id, all, c) == Prepend(li.offered, lw);
    if IdIndex(li.offered, k).Some? {
      assert Visit(path, items, i, ret, id, one, c) == Walked(0, wi.id, wi.offered, [Frame(path, items, i)] + wi.rest);
      FindsAsListedBelow(li, wi, lw, Frame(path, items, i), k, hasCb);
    } else {
      var w := Visit(path, items, i + 1, li.ret, li.id, one, c);
      assert Visit(path, items, i, ret, id, one, c) == Prepend(wi.offered, w);
      FindsAsListedAfter(li, wi, lw, w, k, hasCb);
    }
  }

  /**
   * Whatever the counting, a walk looking for media id `k` meets the files
   * with the numbers the listing walk from the same state gives them: it stops
   * on the first file the listing numbers `k`, or walks to the end when the
   * listing numbers none `k` (see FindsAsListed).
   */
  lemma {:induction false} FindAgreesWithListing(path: string, items: seq<Entry>, i: nat, ret: int, id: int, k: int, hasCb: bool, c: Counting)
    requires i <= |items| && ret != 0 && k >= 0
    ensures FindsAsListed(Visit(path, items, i, ret, id, Query(-1, true), c), Visit(path, items, i, ret, id, Query(k, hasCb), c), k, hasCb)
    decreases items, |items| - i
  {
    if i == |items| {
      return;
    }
    var e := items[i];
    if Passed(path, e) {
      FindAgreesWithListing(path, items, i + 1, ret, PassedId(e, ret, id, c), k, hasCb, c);
      FindsAsListedPassed(path, items, i, ret, id, k, hasCb, c);
    } else if e.kind.Regular? {
      FindAgreesWithListing(path, items, i + 1, 1, id + 1, k, hasCb, c);
      if id == k {
        FindsAsListedHere(path, items, i, ret, id, hasCb, c);
      } else {
        FindsAsListedMedia(path, items, i, ret, id, k, hasCb, c);
      }
    } else {
      assert e in items;
      var sp := JoinPath(path, e.name);
      FindAgreesWithListing(sp, e.kind.items, 0, -1, id, k, hasCb, c);
      var li := Visit(sp, e.kind.items, 0, -1, id, Query(-1, true), c);
      FindAgreesWithListing(path, items, i + 1, li.ret, li.id, k, hasCb, c);
      FindsAsListedDirectory(path, items, i, ret, id, k, hasCb, c);
    }
  }

  /** A directory holding an mp3, a text file and another mp3. */
  function Sample(): seq<Entry>
  {
    [Entry("a.mp3", Regular), Entry("b.txt", Regular), Entry("c.mp3", Regular)]
  }

  lemma SampleFiles()
    ensures |Sample()| == 3
    ensures JoinPath("/m", Sample()[0].name) == "/m/a.mp3" && GetMime("/m/a.mp3") == Some(Mp3)
    ensures JoinPath("/m", Sample()[1].name) == "/m/b.txt" && GetMime("/m/b.txt") == None
    ensures JoinPath("/m", Sample()[2].name) == "/m/c.mp3" && GetMime("/m/c.mp3") == Some(Mp3)
    ensures forall k :: 0 <= k < 3 ==> !Hidden(Sample()[k].name) && Sample()[k].kind == Regular
  {
    SampleNames();
    SampleVisible();
    SampleMime("/m/a.mp3", "/m/c.mp3", "/m/b.txt");
  }

  lemma SampleNames()
    ensures JoinPath("/m", "a.mp3") == "/m/a.mp3"
    ensures JoinPath("/m", "b.txt") == "/m/b.txt"
    ensures JoinPath("/m", "c.mp3") == "/m/c.mp3"
  {
  }

  lemma SampleVisible()
    ensures |Sample()| == 3
    ensures Sample()[0].name == "a.mp3" && Sample()[1].name == "b.txt" && Sample()[2].name == "c.mp3"
    ensures forall k :: 0 <= k < 3 ==> !Hidden(Sample()[k].name) && Sample()[k].kind == Regular
  {
    var s := Sample();
    assert !Hidden(s[0].name) && !Hidden(s[1].name) && !Hidden(s[2].name);
  }

  lemma SampleMime(a: string, c: string, b: string)
    requires a == "/m/a.mp3" && c == "/m/c.mp3" && b == "/m/b.txt"
    ensures GetMime(a) == Some(Mp3) && GetMime(c) == Some(Mp3) && GetMime(b) == None
  {
    assert a[4..] == ".mp3" && c[4..] == ".mp3";
    assert b[5] != 'm';
  }

  /** The media files of Sample(), in listing order. */
  lemma SampleMedia()
    ensures MediaFrom("/m", Sample(), 0) == ["/m/a.mp3", "/m/c.mp3"]
  {
    SampleFiles();
    assert MediaFrom("/m", Sample(), 2) == ["/m/c.mp3"];
    assert MediaFrom("/m", Sample(), 1) == ["/m/c.mp3"];
  }

  /** As written, the listing walk over the last two entries of Sample() offers the second mp3 with id 2. */
  lemma SampleListingTail(q: Query)
    requires q == Query(-1, true)
    ensures Visit("/m", Sample(), 1, 1, 1, q, AsWritten) == Walked(1, 3, [Offer(2, "/m/c.mp3", Mp3)], [])
  {
    SampleFiles();
    assert Visit("/m", Sample(), 3, 1, 3, q, AsWritten) == Walked(1, 3, [], []);
    assert Visit("/m", Sample(), 2, 1, 2, q, AsWritten) == Walked(1, 3, [Offer(2, "/m/c.mp3", Mp3)], []);
  }

  /** As written, a listing numbers the two mp3 files of Sample() 0 and 2. */
  lemma OtherFileTakesId()
    ensures MediaFrom("/m", Sample(), 0) == ["/m/a.mp3", "/m/c.mp3"]
    ensures Visit("/m", Sample(), 0, -1, 0, Query(-1, true), AsWritten).offered
            == [Offer(0, "/m/a.mp3", Mp3), Offer(2, "/m/c.mp3", Mp3)]
  {
    SampleMedia();
    SampleFiles();
    SampleListingTail(Query(-1, true));
  }

  /**
   * As written, resuming at the first mp3 of Sample() with id 0 and looking
   * for id 1 walks past the second mp3 without stopping.
   */
  lemma NextSkipsAfterOtherFile()
    ensures Visit("/m", Sample(), 0, -1, 0, Query(1, false), AsWritten).rest == []
  {
    SampleFiles();
    var q := Query(1, false);
    assert Visit("/m", Sample(), 3, 1, 3, q, AsWritten).rest == [];
    assert Visit("/m", Sample(), 2, 1, 2, q, AsWritten).rest == [];
    assert Visit("/m", Sample(), 1, 1, 1, q, AsWritten).rest == [];
  }

  /** Counting only media files, the same resumed walk stops on the second mp3. */
  lemma NextStopsOnSecondMp3()
    ensures Visit("/m", Sample(), 0, -1, 0, Query(1, false), MediaOnly).rest == [Frame("/m", Sample(), 2)]
  {
    SampleFiles();
    var q := Query(1, false);
    assert Visit("/m", Sample(), 2, 1, 1, q, MediaOnly).rest == [Frame("/m", Sample(), 2)];
    assert Visit("/m", Sample(), 1, 1, 1, q, MediaOnly).rest == [Frame("/m", Sample(), 2)];
  }

  /**
   * _find on an open frame: the loop over the frame's entries, recursing into
   * subdirectories; the frame is closed when its entries run out.
   */
  method Walk(frame: Frame, id: int, q: Query, c: Counting) returns (ret: int, rest: seq<Frame>, mediaid: int, offered: seq<Offer>)
    requires frame.index <= |frame.items|
    ensures Walked(ret, mediaid, offered, rest) == Visit(frame.path, frame.items, frame.index, -1, id, q, c)
    decreases frame.items, 1
  {
    ghost var whole := Visit(frame.path, frame.items, frame.index, -1, id, q, c);
    var index := frame.index;
    ret, mediaid, offered := -1, id, [];
    var below: seq<Frame> := [];
    while index != |frame.items|
      invariant index <= |frame.items|
      invariant ret != 0
      invariant whole == Prepend(offered, Visit(frame.path, frame.items, index, ret, mediaid, q, c))
      decreases |frame.items| - index
    {
      if Hidden(frame.items[index].name) {
        index := index + 1;
        continue;
      }
      var added;
      ghost var before := offered;
      ret, mediaid, added, below := Step(frame.path, frame.items, index, ret, mediaid, q, c);
      offered := offered + added;
      if ret == 0 {
        assert whole == Walked(0, mediaid, offered, [Frame(frame.path, frame.items, index)] + below);
        break;
      }
      PrependTwice(before, added, Visit(frame.path, frame.items, index + 1, ret, mediaid, q, c));
      index := index + 1;
    }
    if index == |frame.items| {
      rest := [];
      assert offered + [] == offered;
    } else {
      rest := [Frame(frame.path, frame.items, index)] + below;
    }
  }

  /** Two prefixes of callbacks in a row are one. */
  lemma PrependTwice(a: seq<Offer>, b: seq<Offer>, w: Walked)
    ensures Prepend(a, Prepend(b, w)) == Prepend(a + b, w)
  {
    assert a + (b + w.offered) == (a + b) + w.offered;
  }

  /**
   * The body of _find's loop for one visible entry: offer a media file, or walk
   * a readable non-empty subdirectory, and update the result and the media id.
   */
  method Step(path: string, items: seq<Entry>, index: nat, ret: int, id: int, q: Query, c: Counting)
    returns (ret': int, mediaid: int, added: seq<Offer>, below: seq<Frame>)
    requires index < |items| && !Hidden(items[index].name)
    requires ret != 0
    ensures ret' == 0 ==> Visit(path, items, index, ret, id, q, c) == Walked(0, mediaid, added, [Frame(path, items, index)] + below)
    ensures ret' != 0 ==> Visit(path, items, index, ret, id, q, c) == Prepend(added, Visit(path, items, index + 1, ret', mediaid, q, c))
    decreases items, 0
  {
    var e := items[index];
    match e.kind {
      case Directory(readable, sub) =>
        if readable && |sub| > 0 {
          assert e in items;
          ret', below, mediaid, added := Walk(Frame(JoinPath(path, e.name), sub, 0), id, q, c);
        } else {
          ret', mediaid, added, below := ret, id, [], [];
          assert [] + Visit(path, items, index + 1, ret, id, q, c).offered == Visit(path, items, index + 1, ret, id, q, c).offered;
        }
      case Regular =>
        ret', mediaid, added := StepFile(path, items, index, ret, id, q, c);
        below := [];
      case Special =>
        ret', mediaid, added, below := ret, id, [], [];
        assert [] + Visit(path, items, index + 1, ret, id, q, c).offered == Visit(path, items, index + 1, ret, id, q, c).offered;
    }
  }

  /** The body of _find's loop for a regular file: offer it when it is media, and update the result and the media id. */
  method StepFile(path: string, items: seq<Entry>, index: nat, ret: int, id: int, q: Query, c: Counting)
    returns (ret': int, mediaid: int, added: seq<Offer>)
    requires index < |items| && !Hidden(items[index].name) && items[index].kind.Regular?
    requires ret != 0
    ensures ret' == 0 ==> Visit(path, items, index, ret, id, q, c) == Walked(0, mediaid, added, [Frame(path, items, index)])
    ensures ret' != 0 ==> Visit(path, items, index, ret, id, q, c) == Prepend(added, Visit(path, items, index + 1, ret', mediaid, q, c))
  {
    var p := JoinPath(path, items[index].name);
    var mime := GetMime(p);
    ret', mediaid, added := ret, id, [];
    if mime.Some? {
      if Invokes(q, id) {
        added := [Offer(id, p, mime.value)];
      }
      ret' := MatchMediaId(q, id);
    }
    if ret' > 0 && (mime.Some? || c == AsWritten) {
      mediaid := id + 1;
    }
  }

  /**
   * _find as a whole: without an open chain, a fresh walk of the root listing
   * with the media id reset to 0 (a URL of another scheme is refused with -1);
   * with one, the walk resumes in its deepest frame and the chain loses that
   * frame when its entries run out. `rest` is the chain afterwards.
   */
  function Resume(url: string, root: seq<Entry>, chain: seq<Frame>, mediaid: int, q: Query, c: Counting): (w: Walked)
    requires chain != [] ==> chain[|chain| - 1].index <= |chain[|chain| - 1].items|
    ensures chain == [] && RootPath(url).None? ==> w.ret == -1 && w.id == mediaid && w.offered == [] && w.rest == []
    ensures chain == [] && RootPath(url).Some? ==> w.id >= 0
    ensures chain != [] ==> w.id >= mediaid && |chain| - 1 <= |w.rest| && w.rest[..|chain| - 1] == chain[..|chain| - 1]
  {
    if chain == [] then
      match RootPath(url)
      case None => Walked(-1, mediaid, [], [])
      case Some(p) => Visit(p, root, 0, -1, 0, q, c)
    else
      var f := chain[|chain| - 1];
      var w := Visit(f.path, f.items, f.index, -1, mediaid, q, c);
      w.(rest := chain[..|chain| - 1] + w.rest)
  }

  lemma LinkedPrefix(chain: seq<Frame>, n: nat)
    requires Linked(chain) && n <= |chain|
    ensures Linked(chain[..n])
  {
  }

  /** Replacing the deepest frame by a chain from the same directory keeps the chain linked. */
  lemma LinkedSplice(chain: seq<Frame>, rest: seq<Frame>)
    requires Linked(chain) && chain != [] && Linked(rest) && rest != []
    requires rest[0].path == chain[|chain| - 1].path && rest[0].items == chain[|chain| - 1].items
    ensures Linked(chain[..|chain| - 1] + rest)
  {
    var n := |chain| - 1;
    var c := chain[..n] + rest;
    forall k | 0 <= k < |c|
      ensures c[k].index < |c[k].items|
    {
      if k >= n {
        assert c[k] == rest[k - n];
      }
    }
    forall k | 0 <= k < |c| - 1
      ensures Opens(c[k], c[k + 1])
    {
      if k + 1 < n {
        assert c[k] == chain[k] && c[k + 1] == chain[k + 1];
      } else if k + 1 == n {
        assert c[k] == chain[k] && Opens(chain[k], chain[k + 1]);
      } else {
        assert c[k] == rest[k - n] && c[k + 1] == rest[k + 1 - n];
      }
    }
  }

  /** _find keeps the iterator chain well formed. */
  lemma ResumeLinked(url: string, root: seq<Entry>, chain: seq<Frame>, mediaid: int, q: Query, c: Counting)
    requires Linked(chain)
    ensures Linked(Resume(url, root, chain, mediaid, q, c).rest)
  {
    if chain == [] {
      if RootPath(url).Some? {
        VisitShape(RootPath(url).value, root, 0, -1, 0, q, c);
      }
    } else {
      var f := chain[|chain| - 1];
      VisitShape(f.path, f.items, f.index, -1, mediaid, q, c);
      var w := Visit(f.path, f.items, f.index, -1, mediaid, q, c);
      if w.rest == [] {
        LinkedPrefix(chain, |chain| - 1);
        assert chain[..|chain| - 1] + w.rest == chain[..|chain| - 1];
      } else {
        LinkedSplice(chain, w.rest);
      }
    }
  }

  /**
   * When the deepest of several frames runs out, only that frame is closed:
   * the chain is left at the directory entry of its parent, not at a file.
   */
  lemma ResumeClosesOneFrame(url: string, root: seq<Entry>, chain: seq<Frame>, mediaid: int, q: Query, c: Counting)
    requires Linked(chain) && |chain| >= 2
    requires Visit(chain[|chain| - 1].path, chain[|chain| - 1].items, chain[|chain| - 1].index, -1, mediaid, q, c).rest == []
    ensures var r := Resume(url, root, chain, mediaid, q, c).rest;
            r == chain[..|chain| - 1] && r[|r| - 1].items[r[|r| - 1].index].kind.Directory?
  {
    var r := Resume(url, root, chain, mediaid, q, c).rest;
    assert r == chain[..|chain| - 1] + [];
    assert Opens(chain[|chain| - 2], chain[|chain| - 1]);
  }

  /** From no chain, looking for media id 0 stops on the first media file of the tree. */
  lemma FirstNextStopsOnFirstMedia(url: string, root: seq<Entry>, mediaid: int)
    requires RootPath(url).Some? && |MediaFrom(RootPath(url).value, root, 0)| > 0
    ensures var w := Resume(url, root, [], mediaid, Query(0, false), MediaOnly);
            w.ret == 0 && w.id == 0 && Current(w.rest) == Some(MediaFrom(RootPath(url).value, root, 0)[0])
  {
    MediaOnlyNumbering(RootPath(url).value, root, 0, -1, 0, Query(0, false));
  }

  /** _find: the imperative walk behind Resume. */
  method Find(url: string, root: seq<Entry>, chain: seq<Frame>, mediaid: int, q: Query, c: Counting)
    returns (ret: int, chain': seq<Frame>, mediaid': int, offered: seq<Offer>)
    requires chain != [] ==> chain[|chain| - 1].index <= |chain[|chain| - 1].items|
    ensures Walked(ret, mediaid', offered, chain') == Resume(url, root, chain, mediaid, q, c)
  {
    if chain == [] {
      var path := RootPath(url);
      if path.None? {
        return -1, chain, mediaid, [];
      }
      var rest;
      ret, rest, mediaid', offered := Walk(Frame(path.value, root, 0), 0, q, c);
      chain' := rest;
    } else {
      var rest;
      ret, rest, mediaid', offered := Walk(chain[|chain| - 1], mediaid, q, c);
      chain' := chain[..|chain| - 1] + rest;
    }
  }

  /** WithLoop sets or clears OPTION_LOOP and keeps every other option bit. */
  function WithLoop(options: bv32, enable: bool): (r: bv32)
    ensures (r & OptionLoop == OptionLoop) == enable
    ensures r & !OptionLoop == options & !OptionLoop
  {
    if enable then options | OptionLoop else options & !OptionLoop
  }

  /** A file the catalog hands to the player: its path and its MIME type, if known. */
  datatype Played = Played(path: string, mime: Option<Mime>)

  /** media_ctx_t. */
  class MediaCtx {
    var url: string
    var mediaid: int
    var options: bv32
    /** The iterator chain, outermost directory first; empty when no walk is open. */
    var current: seq<Frame>

    ghost predicate Valid()
      reads this
    {
      Linked(current)
    }

    constructor (url: string)
      ensures Valid()
      ensures this.url == url && mediaid == -1 && options == 0 && current == []
    {
      this.url := url;
      mediaid := -1;
      options := 0;
      current := [];
    }

    /** media_count: one, whatever the tree holds. */
    method Count() returns (n: int)
      ensures n == 1
    {
      n := 1;
    }

    /** media_insert: the path becomes the catalog's URL. */
    method Insert(path: string) returns (r: int)
      modifies this`url
      ensures url == path && r == 0
    {
      url := path;
      r := 0;
    }

    /** media_remove: not supported. */
    method Remove(id: int, path: string) returns (r: int)
      ensures r == -1
    {
      r := -1;
    }

    /**
     * media_find: a fresh walk looking for media id `id`. With a valid URL and
     * an id among the tree's media files (counted in walk order), it succeeds
     * and the callback, if any, sees exactly that file.
     */
    method FindMedia(id: int, hasCb: bool, root: seq<Entry>) returns (ret: int, offered: seq<Offer>)
      ensures RootPath(url).None? ==> ret == -1 && offered == []
      ensures RootPath(url).Some? && 0 <= id < |MediaFrom(RootPath(url).value, root, 0)| ==>
                ret == 0 && offered == (if hasCb then [Offer(id, MediaFrom(RootPath(url).value, root, 0)[id], Mp3)] else [])
      ensures RootPath(url).Some? && !(0 <= id < |MediaFrom(RootPath(url).value, root, 0)|) ==>
                ret != 0 && offered == (if id == -1 && hasCb then Numbered(MediaFrom(RootPath(url).value, root, 0), 0) else [])
    {
      var chain, nid;
      ret, chain, nid, offered := Find(url, root, [], 0, Query(id, hasCb), MediaOnly);
      if RootPath(url).Some? {
        MediaOnlyNumbering(RootPath(url).value, root, 0, -1, 0, Query(id, hasCb));
      }
    }

    /** media_list: a fresh walk offering every media file, numbered from 0. */
    method List(hasCb: bool, root: seq<Entry>) returns (ret: int, offered: seq<Offer>)
      ensures RootPath(url).None? ==> ret == -1 && offered == []
      ensures RootPath(url).Some? ==>
                ret != 0 && offered == (if hasCb then Numbered(MediaFrom(RootPath(url).value, root, 0), 0) else [])
    {
      var chain, nid;
      ret, chain, nid, offered := Find(url, root, [], 0, Query(-1, hasCb), MediaOnly);
      if RootPath(url).Some? {
        MediaOnlyNumbering(RootPath(url).value, root, 0, -1, 0, Query(-1, hasCb));
      }
    }

    /** media_current: media_find on the current media id. */
    method CurrentMedia(hasCb: bool, root: seq<Entry>) returns (ret: int, offered: seq<Offer>)
      ensures RootPath(url).None? ==> ret == -1 && offered == []
      ensures RootPath(url).Some? && 0 <= mediaid < |MediaFrom(RootPath(url).value, root, 0)| ==>
                ret == 0 && offered == (if hasCb then [Offer(mediaid, MediaFrom(RootPath(url).value, root, 0)[mediaid], Mp3)] else [])
      ensures RootPath(url).Some? && !(0 <= mediaid < |MediaFrom(RootPath(url).value, root, 0)|) ==>
                ret != 0 && offered == (if mediaid == -1 && hasCb then Numbered(MediaFrom(RootPath(url).value, root, 0), 0) else [])
    {
      ret, offered := FindMedia(mediaid, hasCb, root);
    }

    /**
     * media_play: hand the file the chain is at to the player, unless the chain
     * is empty or at a directory; the current media id is returned either way.
     */
    method Play() returns (r: int, played: Option<Played>)
      requires Valid()
      ensures r == mediaid
      ensures played.Some? <==> current != [] && !current[|current| - 1].items[current[|current| - 1].index].kind.Directory?
      ensures played.Some? ==> Some(played.value.path) == Current(current) && played.value.mime == GetMime(played.value.path)
    {
      played := None;
      if current != [] {
        var it := current[|current| - 1];
        if !it.items[it.index].kind.Directory? {
          var path := JoinPath(it.path, it.items[it.index].name);
          played := Some(Played(path, GetMime(path)));
        }
      }
      r := mediaid;
    }

    /** media_next: resume the walk looking for the media id after the current one. */
    method Next(root: seq<Entry>) returns (id: int)
      requires Valid()
      modifies this`current, this`mediaid
      ensures Valid()
      ensures var w := Resume(url, root, old(current), old(mediaid), Query(old(mediaid) + 1, false), MediaOnly);
              current == w.rest && mediaid == w.id && id == mediaid
    {
      ResumeLinked(url, root, current, mediaid, Query(mediaid + 1, false), MediaOnly);
      var ret, offered;
      ret, current, mediaid, offered := Find(url, root, current, mediaid, Query(mediaid + 1, false), MediaOnly);
      id := mediaid;
    }

    /** media_end: close every frame of the chain and forget the media id. */
    method End() returns (r: int)
      modifies this`current, this`mediaid
      ensures Valid()
      ensures current == [] && mediaid == -1 && r == 0
    {
      while current != []
        decreases |current|
      {
        current := current[..|current| - 1];
      }
      mediaid := -1;
      r := 0;
    }

    /** media_loop. */
    method SetLoop(enable: int)
      modifies this`options
      ensures options == WithLoop(old(options), enable != 0)
    {
      if enable != 0 {
        options := options | OptionLoop;
      } else {
        options := options & !OptionLoop;
      }
    }

    /**
     * media_options: the loop option is set or cleared and reported; random is
     * accepted and reported off; anything else is reported off.
     */
    method Options(option: MediaOption, enable: int) returns (ret: int)
      modifies this`options
      ensures option == Loop ==> options == WithLoop(old(options), enable != 0) && (ret == 1 <==> enable != 0) && (ret == 0 || ret == 1)
      ensures option != Loop ==> options == old(options) && ret == 0
    {
      ret := 0;
      if option == Loop {
        SetLoop(enable);
        ret := if options & OptionLoop == OptionLoop then 1 else 0;
      } else if option == Random {
        ret := 0;
      }
    }
  }

  /** media_init: a catalog for a given URL, none without one. */
  method Init(url: Option<string>) returns (ctx: MediaCtx?)
    ensures url.None? ==> ctx == null
    ensures url.Some? ==> ctx != null && fresh(ctx) && ctx.Valid() && ctx.url == url.value &&
                          ctx.mediaid == -1 && ctx.current == [] && ctx.options == 0
  {
    if url.None? {
      return null;
    }
    ctx := new MediaCtx(url.value);
  }
}
