/**
 * The timeline endpoint: every album with its cover (the first of its media in query
 * order), its media count, grouped by year, with the years in descending order. Both
 * queries' results are inputs, in the order the database returns them.
 */
module Timeline {
  import opened Wrappers

  /** A row of the album query (already ordered by year, month descending and title). */
  datatype AlbumRow = AlbumRow(id: string, slug: string, title: string, month: int, year: int,
                               projectName: Option<string>, categoryName: Option<string>)

  /** A row of the media query (ordered by date taken and creation time). */
  datatype MediaRef = MediaRef(albumId: string, slug: string, lqip: Option<string>)

  datatype Cover = Cover(slug: string, lqip: Option<string>)

  /** One album of the response. */
  datatype TimelineAlbum = TimelineAlbum(id: string, slug: string, title: string, month: int, year: int,
                                         coverThumbnail: Option<string>, coverLqip: Option<string>, mediaCount: nat,
                                         projectName: Option<string>, categoryName: Option<string>)

  datatype YearGroup = YearGroup(year: int, albums: seq<TimelineAlbum>)

  /** The index of the first media row of the album, if any. */
  function FirstMediaOf(media: seq<MediaRef>, albumId: string): (r: Option<nat>)
    ensures r.None? <==> forall k :: 0 <= k < |media| ==> media[k].albumId != albumId
    ensures r.Some? ==> r.value < |media| && media[r.value].albumId == albumId
    ensures r.Some? ==> forall k :: 0 <= k < r.value ==> media[k].albumId != albumId
  {
    if media == [] then None
    else if media[0].albumId == albumId then Some(0)
    else
      var rest := FirstMediaOf(media[1..], albumId);
      if rest.Some? then Some(rest.value + 1) else None
  }

  /** The grouped count of media rows of the album. */
  function MediaCount(media: seq<MediaRef>, albumId: string): (n: nat)
    ensures n == 0 <==> forall k :: 0 <= k < |media| ==> media[k].albumId != albumId
  {
    if media == [] then 0
    else (if media[|media| - 1].albumId == albumId then 1 else 0) + MediaCount(media[..|media| - 1], albumId)
  }

  function CoverOf(m: MediaRef): Cover {
    Cover(m.slug, m.lqip)
  }

  /** The cover of an album: the first media row with its id. */
  function CoverFor(media: seq<MediaRef>, albumId: string): Option<Cover> {
    var i := FirstMediaOf(media, albumId);
    if i.Some? then Some(CoverOf(media[i.value])) else None
  }

  /** The response object for an album, given its cover and its count. */
  function ToTimelineAlbum(a: AlbumRow, cover: Option<Cover>, count: nat): (r: TimelineAlbum)
    ensures cover.Some? ==> r.coverThumbnail == Some("/m/" + cover.value.slug + "/thumb") && r.coverLqip == cover.value.lqip
    ensures cover.None? ==> r.coverThumbnail.None? && r.coverLqip.None?
    ensures r.id == a.id && r.slug == a.slug && r.title == a.title && r.month == a.month && r.year == a.year
    ensures r.mediaCount == count && r.projectName == a.projectName && r.categoryName == a.categoryName
  {
    TimelineAlbum(a.id, a.slug, a.title, a.month, a.year,
                  if cover.Some? then Some("/m/" + cover.value.slug + "/thumb") else None,
                  if cover.Some? then cover.value.lqip else None,
                  count, a.projectName, a.categoryName)
  }

  /** The response objects of all albums, in album order. */
  function Responses(albums: seq<AlbumRow>, media: seq<MediaRef>): (r: seq<TimelineAlbum>)
    ensures |r| == |albums|
    ensures forall i :: 0 <= i < |albums| ==> r[i] == ToTimelineAlbum(albums[i], CoverFor(media, albums[i].id), MediaCount(media, albums[i].id))
  {
    seq(|albums|, i requires 0 <= i < |albums| => ToTimelineAlbum(albums[i], CoverFor(media, albums[i].id), MediaCount(media, albums[i].id)))
  }

  /**
   * What the response of album `i` says: the album's own fields; a media count that is 0
   * iff the album has no media; no cover iff it has no media; otherwise the thumbnail
   * path and the preview of its first media row in query order.
   */
  lemma ResponseDescribesAlbum(albums: seq<AlbumRow>, media: seq<MediaRef>, i: nat, j: nat)
    requires i < |albums|
    ensures var r := Responses(albums, media)[i]; var a := albums[i];
      && r.id == a.id && r.slug == a.slug && r.title == a.title && r.month == a.month && r.year == a.year
      && r.projectName == a.projectName && r.categoryName == a.categoryName
    ensures var r := Responses(albums, media)[i];
      (r.mediaCount == 0 <==> forall k :: 0 <= k < |media| ==> media[k].albumId != albums[i].id)
    ensures var r := Responses(albums, media)[i];
      (r.coverThumbnail.None? <==> forall k :: 0 <= k < |media| ==> media[k].albumId != albums[i].id)
      && (r.coverThumbnail.None? ==> r.coverLqip.None?)
    ensures var r := Responses(albums, media)[i];
      j < |media| && media[j].albumId == albums[i].id && (forall k :: 0 <= k < j ==> media[k].albumId != albums[i].id) ==>
      r.coverThumbnail == Some("/m/" + media[j].slug + "/thumb") && r.coverLqip == media[j].lqip
  {
    var first := FirstMediaOf(media, albums[i].id);
    if j < |media| && media[j].albumId == albums[i].id && (forall k :: 0 <= k < j ==> media[k].albumId != albums[i].id) {
      assert first.Some?;
    }
  }

  /** The albums of one year, in their order. */
  function OfYear(s: seq<TimelineAlbum>, year: int): (r: seq<TimelineAlbum>)
    ensures forall x :: x in r ==> x in s && x.year == year
    ensures r == [] <==> forall k :: 0 <= k < |s| ==> s[k].year != year
  {
    if s == [] then []
    else OfYear(s[..|s| - 1], year) + (if s[|s| - 1].year == year then [s[|s| - 1]] else [])
  }

  function YearsOf(s: seq<TimelineAlbum>): set<int> {
    set k | 0 <= k < |s| :: s[k].year
  }

  predicate StrictlyDescending(s: seq<int>) {
    forall i, k :: 0 <= i < k < |s| ==> s[i] > s[k]
  }

  predicate Distinct(s: seq<int>) {
    forall i, k :: 0 <= i < k < |s| ==> s[i] != s[k]
  }

  /** A head above every element of a strictly descending tail keeps it strictly descending. */
  lemma ConsDescending(h: int, t: seq<int>)
    requires StrictlyDescending(t) && forall k :: 0 <= k < |t| ==> t[k] < h
    ensures StrictlyDescending([h] + t)
  {
    var r := [h] + t;
    forall i, k | 0 <= i < k < |r| ensures r[i] > r[k] {
      assert r[k] == t[k - 1];
      if i > 0 {
        assert r[i] == t[i - 1];
      }
    }
  }

  /** The recursive case of InsertDescending: the old head goes in front of the insertion into the tail. */
  lemma InsertBehindHead(x: int, s: seq<int>, rest: seq<int>)
    requires StrictlyDescending(s) && s != [] && x < s[0]
    requires StrictlyDescending(rest)
    requires forall k :: 0 <= k < |rest| ==> rest[k] == x || rest[k] in s[1..]
    requires multiset(rest) == multiset(s[1..]) + multiset{x}
    ensures StrictlyDescending([s[0]] + rest)
    ensures forall k :: 0 <= k < |[s[0]] + rest| ==> ([s[0]] + rest)[k] == x || ([s[0]] + rest)[k] in s
    ensures multiset([s[0]] + rest) == multiset(s) + multiset{x}
  {
    forall k | 0 <= k < |rest| ensures rest[k] < s[0] {
      if rest[k] != x {
        var m :| 0 <= m < |s[1..]| && s[1..][m] == rest[k];
        assert s[m + 1] == rest[k];
      }
    }
    ConsDescending(s[0], rest);
    assert s == [s[0]] + s[1..];
  }

  /** Insert into a strictly descending sequence. */
  function InsertDescending(x: int, s: seq<int>): (r: seq<int>)
    requires StrictlyDescending(s) && x !in s
    ensures StrictlyDescending(r)
    ensures forall k :: 0 <= k < |r| ==> r[k] == x || r[k] in s
    ensures multiset(r) == multiset(s) + multiset{x}
  {
    if s == [] then [x]
    else if x > s[0] then
      ConsDescending(x, s);
      [x] + s
    else
      TailDescending(s);
      var rest := InsertDescending(x, s[1..]);
      InsertBehindHead(x, s, rest);
      [s[0]] + rest
  }

  lemma TailDescending(s: seq<int>)
    requires StrictlyDescending(s) && s != []
    ensures StrictlyDescending(s[1..])
  {
  }

  /** `sort((a, b) => b - a)` of distinct years. */
  function SortDescending(s: seq<int>): (r: seq<int>)
    requires Distinct(s)
    ensures StrictlyDescending(r)
    ensures multiset(r) == multiset(s)
  {
    if s == [] then []
    else
      var rest := SortDescending(s[..|s| - 1]);
      assert s == s[..|s| - 1] + [s[|s| - 1]];
      assert s[|s| - 1] !in multiset(s[..|s| - 1]);
      InsertDescending(s[|s| - 1], rest)
  }

  /** Pick the first media row per album. */
  method BuildCoverMap(allMedia: seq<MediaRef>) returns (coverMap: map<string, Cover>)
    ensures forall id :: id in coverMap <==> FirstMediaOf(allMedia, id).Some?
    ensures forall id :: id in coverMap ==> Some(coverMap[id]) == CoverFor(allMedia, id)
  {
    coverMap := map[];
    ghost var firstAt: map<string, nat> := map[];
    var i := 0;
    while i < |allMedia|
      invariant 0 <= i <= |allMedia|
      invariant firstAt.Keys == coverMap.Keys
      invariant forall k :: 0 <= k < i ==> allMedia[k].albumId in coverMap
      invariant forall id :: id in firstAt ==>
        && firstAt[id] < i && allMedia[firstAt[id]].albumId == id
        && coverMap[id] == CoverOf(allMedia[firstAt[id]])
        && forall k :: 0 <= k < firstAt[id] ==> allMedia[k].albumId != id
    {
      var m := allMedia[i];
      if m.albumId !in coverMap {
        coverMap := coverMap[m.albumId := Cover(m.slug, m.lqip)];
        firstAt := firstAt[m.albumId := i];
      }
      i := i + 1;
    }
    forall id | id in coverMap ensures FirstMediaOf(allMedia, id) == Some(firstAt[id]) {
      assert allMedia[firstAt[id]].albumId == id;
    }
  }

  /** Group by year; `order` lists the years in the order they first occur. */
  /** One more album of the list adds its year. */
  lemma YearsOfPrefix(list: seq<TimelineAlbum>, i: nat)
    requires i < |list|
    ensures YearsOf(list[..i + 1]) == YearsOf(list[..i]) + {list[i].year}
  {
    var p, q := list[..i + 1], list[..i];
    forall y | y in YearsOf(p) ensures y in YearsOf(q) + {list[i].year} {
      var k :| 0 <= k < i + 1 && p[k].year == y;
      if k < i {
        assert q[k] == p[k];
      }
    }
    forall y | y in YearsOf(q) ensures y in YearsOf(p) {
      var k :| 0 <= k < i && q[k].year == y;
      assert p[k] == q[k];
    }
    assert p[i] == list[i];
  }

  /** One more album of the list extends the group of its year only. */
  lemma OfYearPrefix(list: seq<TimelineAlbum>, i: nat)
    requires i < |list|
    ensures forall y :: OfYear(list[..i + 1], y) == OfYear(list[..i], y) + (if list[i].year == y then [list[i]] else [])
  {
    assert list[..i + 1][..i] == list[..i];
    assert list[..i + 1][i] == list[i];
  }

  /** `order` lists the years of `prefix` once each, and `yearMap` holds each year's albums. */
  ghost predicate Grouped(order: seq<int>, yearMap: map<int, seq<TimelineAlbum>>, prefix: seq<TimelineAlbum>) {
    && Distinct(order)
    && (forall y :: y in order <==> y in yearMap)
    && (forall y :: y in yearMap <==> y in YearsOf(prefix))
    && (forall y :: y in yearMap ==> yearMap[y] == OfYear(prefix, y))
  }

  /** One iteration of the grouping loop keeps the groups right. */
  lemma GroupedStep(order: seq<int>, yearMap: map<int, seq<TimelineAlbum>>, list: seq<TimelineAlbum>, i: nat)
    requires i < |list| && Grouped(order, yearMap, list[..i])
    ensures var a := list[i];
      var order' := if a.year in yearMap then order else order + [a.year];
      var group := if a.year in yearMap then yearMap[a.year] else [];
      Grouped(order', yearMap[a.year := group + [a]], list[..i + 1])
  {
    var a := list[i];
    var order' := if a.year in yearMap then order else order + [a.year];
    var group := if a.year in yearMap then yearMap[a.year] else [];
    var m := yearMap[a.year := group + [a]];
    YearsOfPrefix(list, i);
    OfYearPrefix(list, i);
    if a.year !in yearMap {
      assert a.year !in order;
      DistinctSnoc(order, a.year);
    }
    forall y | y in m ensures m[y] == OfYear(list[..i + 1], y) {
      if y == a.year && a.year !in yearMap {
        assert OfYear(list[..i], a.year) == [];
      }
    }
  }

  lemma DistinctSnoc(s: seq<int>, x: int)
    requires Distinct(s) && x !in s
    ensures Distinct(s + [x])
  {
  }

  method GroupByYear(list: seq<TimelineAlbum>) returns (order: seq<int>, yearMap: map<int, seq<TimelineAlbum>>)
    ensures Distinct(order)
    ensures forall y :: y in order <==> y in yearMap
    ensures forall y :: y in yearMap <==> y in YearsOf(list)
    ensures forall y :: y in yearMap ==> yearMap[y] == OfYear(list, y)
  {
    order, yearMap := [], map[];
    var i := 0;
    while i < |list|
      invariant 0 <= i <= |list|
      invariant Grouped(order, yearMap, list[..i])
    {
      var a := list[i];
      GroupedStep(order, yearMap, list, i);
      var group := if a.year in yearMap then yearMap[a.year] else [];
      if a.year !in yearMap {
        order := order + [a.year];
      }
      yearMap := yearMap[a.year := group + [a]];
      i := i + 1;
    }
    assert list[..i] == list;
  }

  /**
   * GET /api/timeline: no albums answers no years; otherwise one group per year that
   * has albums, in strictly descending year order, each holding exactly the albums of
   * its year in query order.
   */
  method GetTimeline(albums: seq<AlbumRow>, allMedia: seq<MediaRef>) returns (years: seq<YearGroup>)
    ensures albums == [] ==> years == []
    ensures forall i, k :: 0 <= i < k < |years| ==> years[i].year > years[k].year
    ensures forall i :: 0 <= i < |years| ==> years[i].albums == OfYear(Responses(albums, allMedia), years[i].year)
    ensures forall y :: y in YearsOf(Responses(albums, allMedia)) <==> exists i :: 0 <= i < |years| && years[i].year == y
  {
    if |albums| == 0 {
      return [];
    }
    var albumsWithCovers := WithCovers(albums, allMedia);
    var order, yearMap := GroupByYear(albumsWithCovers);
    var sorted := SortDescending(order);
    SortedHasSameYears(order, sorted);
    years := GroupsIn(sorted, yearMap);
  }

  /** The mapping of every album to its response object, through the cover map. */
  method WithCovers(albums: seq<AlbumRow>, allMedia: seq<MediaRef>) returns (list: seq<TimelineAlbum>)
    ensures list == Responses(albums, allMedia)
  {
    var coverMap := BuildCoverMap(allMedia);
    list := seq(|albums|, i requires 0 <= i < |albums| =>
      ToTimelineAlbum(albums[i], if albums[i].id in coverMap then Some(coverMap[albums[i].id]) else None,
                      MediaCount(allMedia, albums[i].id)));
  }

  lemma SortedHasSameYears(order: seq<int>, sorted: seq<int>)
    requires multiset(sorted) == multiset(order)
    ensures forall y :: y in sorted <==> y in order
  {
    assert forall y :: y in sorted <==> y in multiset(sorted);
    assert forall y :: y in order <==> y in multiset(order);
  }

  /** `Array.from(yearMap.entries())`, listed in the order of `sorted`. */
  function GroupsIn(sorted: seq<int>, yearMap: map<int, seq<TimelineAlbum>>): (r: seq<YearGroup>)
    requires forall i :: 0 <= i < |sorted| ==> sorted[i] in yearMap
    ensures |r| == |sorted|
    ensures forall i :: 0 <= i < |sorted| ==> r[i] == YearGroup(sorted[i], yearMap[sorted[i]])
  {
    seq(|sorted|, i requires 0 <= i < |sorted| => YearGroup(sorted[i], yearMap[sorted[i]]))
  }

  /** Every album is in the group of its own year and in no other. */
  lemma AlbumInItsYearOnly(s: seq<TimelineAlbum>, k: nat, y: int)
    requires k < |s|
    ensures s[k] in OfYear(s, y) <==> s[k].year == y
  {
    if s[k].year == y {
      OfYearKeeps(s, k);
    }
  }

  lemma {:induction false} OfYearKeeps(s: seq<TimelineAlbum>, k: nat)
    requires k < |s|
    ensures s[k] in OfYear(s, s[k].year)
    decreases |s|
  {
    if k < |s| - 1 {
      assert s[..|s| - 1][k] == s[k];
      OfYearKeeps(s[..|s| - 1], k);
    }
  }

  /** The cover is never replaced: media after the first of an album do not change its cover. */
  lemma CoverIsFirst(media: seq<MediaRef>, later: seq<MediaRef>, albumId: string)
    requires FirstMediaOf(media, albumId).Some?
    ensures CoverFor(media + later, albumId) == CoverFor(media, albumId)
  {
    var i := FirstMediaOf(media, albumId).value;
    var j := FirstMediaOf(media + later, albumId);
    assert (media + later)[i] == media[i];
    assert forall k :: 0 <= k < i ==> (media + later)[k] == media[k];
  }
}
