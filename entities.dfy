/**
 * svc/models/entities.py: the `images` table of processed uploads. Each row records the
 * stored file name, the analysis results as JSON and the upload time. Rows are added one
 * at a time and read back newest first, a page at a time. Timestamps are integers (later
 * is larger), and `isoformat` is a parameter of serialisation.
 */
module Entities {
  import opened Wrappers

  /** A JSON document, as the `result` column stores it. */
  datatype Json =
    | JNull
    | JBool(b: bool)
    | JNumber(n: real)
    | JString(s: string)
    | JArray(items: seq<Json>)
    | JObject(fields: map<string, Json>)

  /** A row of `images`: `id` assigned by the table, `path` required, `result` nullable, `uploaded_at` required. */
  datatype Image = Image(id: nat, path: string, result: Json, uploadedAt: int)

  /** `serialize(base_url)`'s dictionary. */
  datatype SerializedImage = SerializedImage(imageName: string, imageUrl: string, results: Json, uploadedAt: string)

  /**
   * `serialize(base_url)`: the stored name as `image_name`, the URL `base_url/name`, the
   * stored result unchanged, and the upload time in ISO form.
   */
  function Serialize(image: Image, baseUrl: string, isoformat: int -> string): (s: SerializedImage)
    ensures s.imageName == image.path
    ensures s.results == image.result
    ensures s.uploadedAt == isoformat(image.uploadedAt)
    ensures |s.imageUrl| == |baseUrl| + 1 + |s.imageName|
    ensures s.imageUrl[..|baseUrl|] == baseUrl
    ensures s.imageUrl[|baseUrl|..] == "/" + s.imageName
  {
    SerializedImage(image.path, baseUrl + "/" + image.path, image.result, isoformat(image.uploadedAt))
  }

  /** The image name a URL under `baseUrl` designates: what follows `baseUrl + "/"`. */
  function ImageNameOf(url: string, baseUrl: string): (name: Option<string>)
    ensures name.Some? ==> url == baseUrl + "/" + name.value
  {
    if |url| > |baseUrl| && url[..|baseUrl|] == baseUrl && url[|baseUrl|] == '/'
    then Some(url[|baseUrl| + 1..])
    else None
  }

  /** A serialised image's URL leads back to its name. */
  lemma UrlNamesImage(image: Image, baseUrl: string, isoformat: int -> string)
    ensures ImageNameOf(Serialize(image, baseUrl, isoformat).imageUrl, baseUrl) == Some(image.path)
  {
    var url := Serialize(image, baseUrl, isoformat).imageUrl;
    assert url[|baseUrl|] == ("/" + image.path)[0];
    assert url[|baseUrl| + 1..] == ("/" + image.path)[1..];
  }

  /** Newest first: `uploaded_at` never increases along the sequence. */
  ghost predicate NewestFirst(images: seq<Image>)
  {
    forall i, j | 0 <= i < j < |images| :: images[i].uploadedAt >= images[j].uploadedAt
  }

  /** Places `image` into a newest-first sequence, before the rows no newer than it. */
  function Insert(image: Image, images: seq<Image>): (r: seq<Image>)
    requires NewestFirst(images)
    ensures NewestFirst(r)
    ensures multiset(r) == multiset(images) + multiset{image}
    ensures r[0] == image || (images != [] && r[0] == images[0])
  {
    if images == [] || image.uploadedAt >= images[0].uploadedAt then
      PrependNewestFirst(image, images);
      [image] + images
    else
      assert images == [images[0]] + images[1..];
      var rest := Insert(image, images[1..]);
      PrependNewestFirst(images[0], rest);
      [images[0]] + rest
  }

  /** A row no older than the head of a newest-first sequence can go in front of it. */
  lemma PrependNewestFirst(image: Image, images: seq<Image>)
    requires NewestFirst(images)
    requires images == [] || image.uploadedAt >= images[0].uploadedAt
    ensures NewestFirst([image] + images)
  {
    var r := [image] + images;
    forall i, j | 0 <= i < j < |r| ensures r[i].uploadedAt >= r[j].uploadedAt {
      if i == 0 {
        assert r[j] == images[j - 1];
        assert images[0].uploadedAt >= images[j - 1].uploadedAt;
      } else {
        assert r[i] == images[i - 1] && r[j] == images[j - 1];
      }
    }
  }

  /**
   * `ORDER BY uploaded_at DESC`: the same rows, newest first. SQL leaves the order of rows
   * with equal times open; this ordering keeps them in table order.
   */
  function NewestFirstOrder(images: seq<Image>): (r: seq<Image>)
    ensures NewestFirst(r)
    ensures multiset(r) == multiset(images)
  {
    if images == [] then []
    else
      assert images == [images[0]] + images[1..];
      Insert(images[0], NewestFirstOrder(images[1..]))
  }

  /** The page number `paginate` uses: pages below 1 read as page 1 when `error_out` is off. */
  function PageNumber(page: int): (p: nat)
    ensures p >= 1
    ensures page >= 1 ==> p == page
    ensures page < 1 ==> p == 1
  {
    if page < 1 then 1 else page
  }

  /** The page size `paginate` uses: a negative size reads as 20 when `error_out` is off. */
  function PageSize(perPage: int): (size: nat)
    ensures perPage >= 0 ==> size == perPage
    ensures perPage < 0 ==> size == 20
  {
    if perPage < 0 then 20 else perPage
  }

  /** The position of the first row of a page: `(page - 1) * per_page`. */
  function Offset(page: int, perPage: int): nat
  {
    (PageNumber(page) - 1) * PageSize(perPage)
  }

  /**
   * `paginate(page, per_page, error_out=False).items`: the rows at positions
   * `(page - 1) * per_page` up to `page * per_page`, as many of them as exist; a page past
   * the end is empty, not an error.
   */
  function Paginate<T>(items: seq<T>, page: int, perPage: int): (r: seq<T>)
    ensures |r| <= PageSize(perPage)
    ensures Offset(page, perPage) >= |items| ==> r == []
    ensures forall k | 0 <= k < |r| :: Offset(page, perPage) + k < |items| && r[k] == items[Offset(page, perPage) + k]
    ensures Offset(page, perPage) < |items| ==> |r| == Min(PageSize(perPage), |items| - Offset(page, perPage))
  {
    var offset := Offset(page, perPage);
    if offset >= |items| then [] else items[offset..Min(offset + PageSize(perPage), |items|)]
  }

  function Min(a: int, b: int): int
  {
    if a <= b then a else b
  }

  /** Pages 1 to `count`, one after the other. */
  function FirstPages<T>(items: seq<T>, perPage: nat, count: nat): seq<T>
  {
    if count == 0 then [] else FirstPages(items, perPage, count - 1) + Paginate(items, count, perPage)
  }

  /** Reading pages 1, 2, ... in turn gives the rows in order, without gaps or repeats. */
  lemma {:induction false} PagesCoverRows<T>(items: seq<T>, perPage: nat, count: nat)
    ensures FirstPages(items, perPage, count) == items[..Min(count * perPage, |items|)]
  {
    if count > 0 {
      PagesCoverRows(items, perPage, count - 1);
      var start := (count - 1) * perPage;
      NextPageStart(count, perPage);
      var lo := Min(start, |items|);
      var hi := Min(start + perPage, |items|);
      PageIsSlice(items, count, perPage, start);
      SlicesJoin(items, lo, hi);
      calc {
        FirstPages(items, perPage, count);
        FirstPages(items, perPage, count - 1) + Paginate(items, count, perPage);
        items[..lo] + items[lo..hi];
        items[..hi];
      }
    }
  }

  lemma SlicesJoin<T>(items: seq<T>, lo: nat, hi: nat)
    requires lo <= hi <= |items|
    ensures items[..lo] + items[lo..hi] == items[..hi]
  {
  }

  lemma NextPageStart(count: nat, perPage: nat)
    requires count > 0
    ensures (count - 1) * perPage + perPage == count * perPage
    ensures Offset(count, perPage) == (count - 1) * perPage
  {
  }

  /** Page `page` is the run of rows from its offset, cut at the end of the sequence. */
  lemma PageIsSlice<T>(items: seq<T>, page: int, perPage: int, start: nat)
    requires start == Offset(page, perPage)
    ensures Paginate(items, page, perPage) == items[Min(start, |items|)..Min(start + PageSize(perPage), |items|)]
  {
  }

  /**
   * The `images` table. Ids are assigned in increasing order; `nextId` is the id the
   * next row gets.
   */
  class ImageTable {
    var rows: seq<Image>
    var nextId: nat

    ghost predicate Valid()
      reads this
    {
      forall i | 0 <= i < |rows| :: rows[i].id < nextId &&
        forall j | i < j < |rows| :: rows[i].id < rows[j].id
    }

    constructor ()
      ensures Valid() && rows == [] && nextId == 1
    {
      rows := [];
      nextId := 1;
    }

    /**
     * `Images.save_results(path, result)`: adds exactly one row with the given path and
     * result, a fresh id, and `uploaded_at` the time of the call (`now`); the rows already
     * there stay as they were.
     */
    method SaveResults(path: string, result: Json, now: int)
      requires Valid()
      modifies this
      ensures Valid()
      ensures rows == old(rows) + [Image(old(nextId), path, result, now)]
      ensures nextId == old(nextId) + 1
    {
      rows := rows + [Image(nextId, path, result, now)];
      nextId := nextId + 1;
    }

    /**
     * `Images.get_history(page, per_page)`: at most one page of rows, newest first, each
     * a row of the table; a page past the end is empty.
     */
    function GetHistory(page: int, perPage: int): (r: seq<Image>)
      reads this
      ensures NewestFirst(r)
      ensures |r| <= PageSize(perPage)
      ensures multiset(r) <= multiset(rows)
      ensures Offset(page, perPage) >= |rows| ==> r == []
      ensures r == Paginate(NewestFirstOrder(rows), page, perPage)
    {
      var ordered := NewestFirstOrder(rows);
      var r := Paginate(ordered, page, perPage);
      PageOfNewestFirst(ordered, page, perPage);
      r
    }
  }

  /** A page of a newest-first sequence is newest first and holds rows of it. */
  lemma PageOfNewestFirst(items: seq<Image>, page: int, perPage: int)
    requires NewestFirst(items)
    ensures NewestFirst(Paginate(items, page, perPage))
    ensures multiset(Paginate(items, page, perPage)) <= multiset(items)
  {
    var offset := Offset(page, perPage);
    if offset < |items| {
      var hi := Min(offset + PageSize(perPage), |items|);
      assert Paginate(items, page, perPage) == items[offset..hi];
      SliceOfNewestFirst(items, offset, hi);
    } else {
      assert Paginate(items, page, perPage) == [];
    }
  }

  lemma SliceOfNewestFirst(items: seq<Image>, lo: nat, hi: nat)
    requires lo <= hi <= |items|
    requires NewestFirst(items)
    ensures NewestFirst(items[lo..hi])
    ensures multiset(items[lo..hi]) <= multiset(items)
  {
    var slice := items[lo..hi];
    forall i, j | 0 <= i < j < |slice| ensures slice[i].uploadedAt >= slice[j].uploadedAt {
      assert slice[i] == items[lo + i] && slice[j] == items[lo + j];
    }
    assert items == items[..lo] + slice + items[hi..];
    assert multiset(items) == multiset(items[..lo]) + multiset(slice) + multiset(items[hi..]);
  }

  /**
   * A row saved later than every other row comes first on page 1 of the history, for
   * any non-zero page size.
   */
  lemma NewestSavedComesFirst(rows: seq<Image>, latest: Image, perPage: int)
    requires forall i | 0 <= i < |rows| :: rows[i].uploadedAt < latest.uploadedAt
    requires perPage != 0
    ensures Paginate(NewestFirstOrder(rows + [latest]), 1, perPage) != []
    ensures Paginate(NewestFirstOrder(rows + [latest]), 1, perPage)[0] == latest
  {
    var ordered := NewestFirstOrder(rows + [latest]);
    StrictlyNewestIsHead(rows, latest, ordered);
    PageIsSlice(ordered, 1, perPage, 0);
  }

  /** In any newest-first arrangement of `rows` and `latest`, a strictly newest `latest` is the head. */
  lemma StrictlyNewestIsHead(rows: seq<Image>, latest: Image, ordered: seq<Image>)
    requires forall i | 0 <= i < |rows| :: rows[i].uploadedAt < latest.uploadedAt
    requires NewestFirst(ordered)
    requires multiset(ordered) == multiset(rows + [latest])
    ensures ordered != [] && ordered[0] == latest
  {
    assert latest in multiset(rows + [latest]);
    assert latest in multiset(ordered);
    var j :| 0 <= j < |ordered| && ordered[j] == latest;
    var first := ordered[0];
    assert first in multiset(ordered);
    assert first in multiset(rows + [latest]);
    assert first.uploadedAt >= latest.uploadedAt;
  }
}
