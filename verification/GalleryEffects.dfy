// What each gallery operation answers and changes, in terms of the ordered lists.
module GalleryEffects {
  import opened Common
  import opened Galleries
  import opened GalleryRuns

  /** Only this product's gallery differs. */
  ghost predicate OnlyGallery(s: State, s': State, p: ProductId, list: seq<Picture>) {
    && p in s'.galleries && s'.galleries[p] == list
    && s'.galleries.Keys == s.galleries.Keys + {p}
    && forall q :: q in s.galleries && q != p ==> s'.galleries[q] == s.galleries[q]
  }

  /** The upload of this admin at this address, used up. */
  ghost predicate UploadUsed(s: State, s': State, image: Image) {
    s'.pending.Keys == s.pending.Keys - {image.publicId} && forall k :: k in s'.pending ==> s'.pending[k] == s.pending[k]
  }

  ghost predicate Available(s: State, image: Image, admin: AdminId, now: Time) {
    && image.publicId in s.pending
    && s.pending[image.publicId].uploadedBy == admin
    && now < s.pending[image.publicId].expiresAt
  }

  ghost predicate InUse(s: State, publicId: string) {
    exists p, i :: p in s.galleries && 0 <= i < |s.galleries[p]| && s.galleries[p][i].image.publicId == publicId
  }

  /** Why an image cannot come in: nothing uploaded, another address, or already in a gallery. */
  ghost predicate Admitted(s: State, image: Image, admin: AdminId, now: Time) {
    Available(s, image, admin, now) && s.pending[image.publicId].url == image.url && !InUse(s, image.publicId)
  }

  ghost predicate RefusedImage(s: State, image: Image, admin: AdminId, now: Time, error: Error) {
    if !Available(s, image, admin, now) then error == UploadInvalid
    else if s.pending[image.publicId].url != image.url then error == UrlMismatch
    else error == Conflict && InUse(s, image.publicId)
  }

  // ---- attaching ----

  /** An attach goes through if and only if the product exists, has fewer than four images, and the
      image is admitted. The new image becomes the head when asked for as primary, or unasked when it
      is the first, and comes last otherwise. A refusal changes nothing. */
  lemma AttachIff(s: State, p: ProductId, image: Image, isPrimary: Option<bool>, admin: AdminId, now: Time, newId: ImageId)
    ensures var (s', r) := Attach(s, p, image, isPrimary, admin, now, newId);
      && (r == Done <==> p in s.galleries && |s.galleries[p]| < 4 && Admitted(s, image, admin, now))
      && (r == Done ==>
            && p in s.galleries && UploadUsed(s, s', image)
            && (var front := isPrimary == Some(true) || (isPrimary == None && s.galleries[p] == []);
                OnlyGallery(s, s', p, if front then [Picture(newId, image)] + s.galleries[p]
                                      else s.galleries[p] + [Picture(newId, image)])))
      && (r != Done ==> s' == s)
  {
  }

  lemma AttachRefusals(s: State, p: ProductId, image: Image, isPrimary: Option<bool>, admin: AdminId, now: Time, newId: ImageId)
    ensures var r := Attach(s, p, image, isPrimary, admin, now, newId).1;
      && (r == Failed(ProductNotFound) <==> p !in s.galleries)
      && (r == Failed(UploadInvalid) <==> p in s.galleries && !Available(s, image, admin, now))
      && (r == Failed(UrlMismatch) <==>
            p in s.galleries && Available(s, image, admin, now) && s.pending[image.publicId].url != image.url)
      && (r == Failed(TooManyImages) <==>
            && p in s.galleries && Available(s, image, admin, now) && s.pending[image.publicId].url == image.url
            && 4 <= |s.galleries[p]|)
  {
  }

  // ---- listing ----

  /** A listing by the query's keys: primary images first, then by sort order, then by age. */
  lemma QueryOrder(rows: Rows, p: ProductId, ids: seq<ImageId>)
    ensures SortedListing(rows, p, ids) <==>
      && NoDuplicates(ids)
      && (forall id :: id in ids <==> id in rows && rows[id].product == p)
      && forall i, j :: 0 <= i < j < |ids| && ids[i] in rows && ids[j] in rows ==> Precedes(rows[ids[i]], rows[ids[j]])
  {
    if SortedListing(rows, p, ids) {
      forall id | id in ids ensures id in rows && rows[id].product == p {
        var k :| 0 <= k < |ids| && ids[k] == id;
      }
    }
  }

  ghost predicate Precedes(a: Row, b: Row) {
    && (b.isPrimary ==> a.isPrimary)
    && (a.isPrimary == b.isPrimary ==> a.sortOrder <= b.sortOrder)
    && (a.isPrimary == b.isPrimary && a.sortOrder == b.sortOrder ==> a.createdAt <= b.createdAt)
  }

  // ---- reordering ----

  /** Each id exactly once. */
  ghost predicate Rearranges(ids: seq<ImageId>, list: seq<Picture>) {
    multiset(ids) == multiset(Ids(list))
  }

  lemma {:induction false} DistinctCounts<T>(xs: seq<T>)
    ensures NoDuplicates(xs) <==> forall x :: multiset(xs)[x] <= 1
  {
    if xs != [] {
      var n := |xs| - 1;
      DistinctCounts(xs[..n]);
      assert xs == xs[..n] + [xs[n]];
      if NoDuplicates(xs) {
        assert xs[n] !in xs[..n];
        forall x ensures multiset(xs)[x] <= 1 {
          assert multiset(xs)[x] == multiset(xs[..n])[x] + multiset([xs[n]])[x];
        }
      } else if NoDuplicates(xs[..n]) {
        var i :| 0 <= i < n && xs[i] == xs[n];
        assert xs[..n][i] == xs[n];
        assert multiset(xs[..n])[xs[n]] >= 1;
        assert multiset(xs)[xs[n]] == multiset(xs[..n])[xs[n]] + 1;
      } else {
        var x :| multiset(xs[..n])[x] > 1;
        assert multiset(xs)[x] >= multiset(xs[..n])[x];
      }
    }
  }

  lemma RearrangesIff(ids: seq<ImageId>, list: seq<Picture>)
    requires NoDuplicates(Ids(list))
    ensures Rearranges(ids, list) <==> IsPermutation(ids, list)
  {
    DistinctCounts(Ids(list));
    DistinctCounts(ids);
    if Rearranges(ids, list) {
      assert |multiset(ids)| == |ids| && |multiset(Ids(list))| == |Ids(list)|;
      forall i | 0 <= i < |ids| ensures ids[i] in Ids(list) {
        assert ids[i] in multiset(ids);
      }
    }
    if IsPermutation(ids, list) {
      PermutationCovers(Ids(list), ids);
      forall x ensures multiset(ids)[x] == multiset(Ids(list))[x] {
        assert x in ids <==> x in Ids(list);
        assert (x in multiset(ids)) <==> x in ids;
        assert (x in multiset(Ids(list))) <==> x in Ids(list);
      }
    }
  }

  /** A reorder goes through if and only if the product has images and the request names each of them
      exactly once. The gallery then has the requested ids in the requested order, each with its own
      image; other galleries and the uploads do not change. A refusal changes nothing. */
  lemma ReorderIff(s: State, p: ProductId, ids: seq<ImageId>)
    requires Inv(s)
    ensures var (s', r) := Reorder(s, p, ids);
      && (r == Done <==> p in s.galleries && s.galleries[p] != [] && Rearranges(ids, s.galleries[p]))
      && (r == Done ==>
            && p in s.galleries && p in s'.galleries && s'.pending == s.pending
            && OnlyGallery(s, s', p, s'.galleries[p])
            && Ids(s'.galleries[p]) == ids
            && forall x :: x in s'.galleries[p] <==> x in s.galleries[p])
      && (r != Done ==> s' == s)
      && (r == Failed(ProductNotFound) <==> p !in s.galleries)
      && (r == Failed(NoImages) <==> p in s.galleries && s.galleries[p] == [])
      && (r in {Done, Failed(ProductNotFound), Failed(NoImages), Failed(NotAPermutation)})
  {
    if p in s.galleries {
      var list := s.galleries[p];
      assert DistinctPictures(list);
      RearrangesIff(ids, list);
      if IsPermutation(ids, list) {
        ArrangedPictures(list, ids);
      }
    }
  }

  lemma ArrangedPictures(list: seq<Picture>, ids: seq<ImageId>)
    requires DistinctPictures(list) && IsPermutation(ids, list)
    ensures forall x :: x in Arrange(list, ids) <==> x in list
  {
    ArrangeDistinct(list, ids);
    PermutationCovers(Ids(list), ids);
    assert forall i :: 0 <= i < |list| ==> Ids(list)[i] == list[i].id;
    forall i | 0 <= i < |list| ensures list[i] in Arrange(list, ids) {
      PicturePlaced(list, ids, i);
    }
  }

  lemma PicturePlaced(list: seq<Picture>, ids: seq<ImageId>, i: nat)
    requires DistinctPictures(list) && IsPermutation(ids, list) && i < |list| && list[i].id in ids
    ensures list[i] in Arrange(list, ids)
  {
    var k :| 0 <= k < |ids| && ids[k] == list[i].id;
    assert Arrange(list, ids)[k] == list[Find(list, ids[k])];
  }

  // ---- deleting ----

  /** A delete goes through if and only if the product has images, and the named one if one is named.
      One picture goes, the named one or else the head, and the others keep their order. The uploads
      do not change. A refusal changes nothing. */
  lemma DeleteIff(s: State, p: ProductId, target: Option<ImageId>)
    ensures var (s', r) := Delete(s, p, target);
      && (r == Done <==>
            && p in s.galleries && s.galleries[p] != []
            && (target.Some? ==> exists i :: 0 <= i < |s.galleries[p]| && s.galleries[p][i].id == target.value))
      && (r == Done ==>
            && p in s.galleries && s'.pending == s.pending
            && exists i :: Removed(s, s', p, i) && (if target.Some? then s.galleries[p][i].id == target.value else i == 0))
      && (r != Done ==> s' == s)
      && (r == Failed(ProductNotFound) <==> p !in s.galleries)
      && (r == Failed(NoImages) <==> p in s.galleries && s.galleries[p] == [])
      && (r in {Done, Failed(ProductNotFound), Failed(NoImages), Failed(ImageNotFound)})
  {
    var (s', r) := Delete(s, p, target);
    if p in s.galleries {
      var list := s.galleries[p];
      assert forall i :: 0 <= i < |list| ==> Ids(list)[i] == list[i].id;
      if r == Done {
        var i := if target.Some? then Find(list, target.value) else 0;
        assert Removed(s, s', p, i);
      }
    }
  }

  ghost predicate Removed(s: State, s': State, p: ProductId, i: int) {
    && p in s.galleries && 0 <= i < |s.galleries[p]|
    && OnlyGallery(s, s', p, s.galleries[p][..i] + s.galleries[p][i + 1..])
  }

  // ---- creating and updating a product ----

  /** A new product has no image, or one admitted image as its head; otherwise it is not created. */
  lemma CreateProductIff(s: State, p: ProductId, image: Option<Image>, admin: AdminId, now: Time, newId: ImageId)
    requires p !in s.galleries
    ensures var (s', r) := CreateProduct(s, p, image, admin, now, newId);
      && (r == Done <==> image.None? || Admitted(s, image.value, admin, now))
      && (r == Done && image.None? ==> OnlyGallery(s, s', p, []) && s'.pending == s.pending)
      && (r == Done && image.Some? ==>
            OnlyGallery(s, s', p, [Picture(newId, image.value)]) && UploadUsed(s, s', image.value))
      && (r.Failed? ==> s' == s && image.Some? && RefusedImage(s, image.value, admin, now, r.error))
  {
  }

  /** An update without an image, or with the one the product has, leaves the gallery alone; with
      another admitted image it puts that in the head's place, and the rest stays in order. */
  lemma UpdateImageIff(s: State, p: ProductId, incoming: Option<Image>, admin: AdminId, now: Time, newId: ImageId)
    ensures var (s', r) := UpdateImage(s, p, incoming, admin, now, newId);
      && (r == Failed(ProductNotFound) <==> p !in s.galleries)
      && (p in s.galleries && incoming.None? ==> r == Done && s' == s)
      && (p in s.galleries && incoming.Some? ==>
            (var list, image := s.galleries[p], incoming.value;
              if list != [] && list[0].image.publicId == image.publicId then
                s' == s && r == if list[0].image.url == image.url then Done else Failed(UrlNotPrimary)
              else if Admitted(s, image, admin, now) then
                && r == Done && UploadUsed(s, s', image)
                && OnlyGallery(s, s', p, [Picture(newId, image)] + list[if list == [] then 0 else 1..])
              else s' == s && r.Failed? && RefusedImage(s, image, admin, now, r.error)))
  {
  }

  // ---- uploads ----

  /** Recording an upload, and dropping the expired ones, touches no gallery. */
  lemma UploadsOnly(s: State, publicId: string, upload: Pending, now: Time)
    ensures Step(s, UploadOp(publicId, upload)) == s.(pending := s.pending[publicId := upload])
    ensures var s' := Step(s, CleanupOp(now));
      && s'.galleries == s.galleries
      && (forall k :: k in s'.pending <==> k in s.pending && now < s.pending[k].expiresAt)
      && (forall k :: k in s'.pending ==> s'.pending[k] == s.pending[k])
  {
  }
}
