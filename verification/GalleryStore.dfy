// src/product/service.rs: the product_images rows, the copied fields on products, the pending
// uploads, and the statements of the gallery functions, refining the ordered lists.
module GalleryStore {
  import opened Common
  import opened Galleries

  // ---- rows and lists ----

  /** Rows numbered along a list, the head primary, show that list. */
  lemma DenseRowsShow(rows: Rows, p: ProductId, list: seq<Picture>)
    requires forall k :: 0 <= k < |list| ==>
      && list[k].id in rows && rows[list[k].id].product == p && rows[list[k].id].image == list[k].image
      && rows[list[k].id].sortOrder == k && (rows[list[k].id].isPrimary <==> k == 0)
    requires forall id :: id in rows && rows[id].product == p ==> id in Ids(list)
    ensures Shows(rows, p, list)
  {
  }

  ghost predicate OthersUntouched(rows: Rows, rows': Rows, p: ProductId) {
    && (forall id :: id in rows && rows[id].product != p ==> id in rows' && rows'[id] == rows[id])
    && (forall id :: id in rows' && rows'[id].product != p ==> id in rows && rows[id] == rows'[id])
  }

  lemma OtherGalleriesStillShown(rows: Rows, rows': Rows, p: ProductId, q: ProductId, list: seq<Picture>)
    requires OthersUntouched(rows, rows', p) && q != p && Shows(rows, q, list)
    ensures Shows(rows', q, list)
  {
    forall i | 0 <= i < |list| ensures HasPicture(rows', q, list, i) {
      assert HasPicture(rows, q, list, i);
    }
    forall i, j | 0 <= i < j < |list| ensures InOrder(rows', list, i, j) {
      assert InOrder(rows, list, i, j) && HasPicture(rows, q, list, i) && HasPicture(rows, q, list, j);
    }
  }

  /** Rewriting one product's rows to show another list keeps the refinement. */
  lemma RefinesUpdate(rows: Rows, rows': Rows, copies: map<ProductId, Option<Image>>,
                      galleries: map<ProductId, seq<Picture>>, p: ProductId, list': seq<Picture>)
    requires Refines(rows, copies, galleries) && OthersUntouched(rows, rows', p)
    requires Shows(rows', p, list') && |list'| <= MAX_PRODUCT_IMAGES && UniquePublicIds(rows')
    ensures Refines(rows', copies[p := HeadImage(list')], galleries[p := list'])
  {
    forall q | q in galleries && q != p ensures Shows(rows', q, galleries[q]) {
      OtherGalleriesStillShown(rows, rows', p, q, galleries[q]);
    }
  }

  lemma RefinesOnePrimary(rows: Rows, copies: map<ProductId, Option<Image>>, galleries: map<ProductId, seq<Picture>>)
    requires Refines(rows, copies, galleries)
    ensures OnePrimary(rows)
  {
    forall a | a in rows && rows[a].isPrimary
      ensures rows[a].product in galleries && galleries[rows[a].product] != [] && galleries[rows[a].product][0].id == a
    {
      var list := galleries[rows[a].product];
      assert a in Ids(list);
      var i :| 0 <= i < |list| && Ids(list)[i] == a;
      assert HasPicture(rows, rows[a].product, list, i);
    }
  }

  lemma UsesIsRow(rows: Rows, copies: map<ProductId, Option<Image>>, galleries: map<ProductId, seq<Picture>>, publicId: string)
    requires Refines(rows, copies, galleries)
    ensures Uses(galleries, publicId) <==> exists id :: id in rows && rows[id].image.publicId == publicId
  {
    if Uses(galleries, publicId) {
      var p, i :| p in galleries && 0 <= i < |galleries[p]| && galleries[p][i].image.publicId == publicId;
      assert HasPicture(rows, p, galleries[p], i);
    }
    if id :| id in rows && rows[id].image.publicId == publicId {
      var p := rows[id].product;
      assert id in Ids(galleries[p]);
      var i :| 0 <= i < |galleries[p]| && Ids(galleries[p])[i] == id;
      assert HasPicture(rows, p, galleries[p], i);
    }
  }

  /** UPDATE product_images SET is_primary = FALSE WHERE product_id = p. */
  function Unmarked(rows: Rows, p: ProductId): Rows {
    map id | id in rows :: if rows[id].product == p then rows[id].(isPrimary := false) else rows[id]
  }

  /** DELETE FROM product_images WHERE product_id = p AND image_public_id = publicId. */
  function Deleted(rows: Rows, p: ProductId, publicId: string): Rows {
    map id | id in rows && !(rows[id].product == p && rows[id].image.publicId == publicId) :: rows[id]
  }

  /** UPDATE product_images SET sort_order = sort_order + 1 WHERE product_id = p. */
  function MovedBack(rows: Rows, p: ProductId): Rows {
    map id | id in rows :: if rows[id].product == p then rows[id].(sortOrder := rows[id].sortOrder + 1) else rows[id]
  }

  /** The rows after `apply_product_image_order`. */
  ghost predicate Reordered(rows: Rows, rows': Rows, p: ProductId, ids: seq<ImageId>, primary: Option<ImageId>) {
    && rows'.Keys == rows.Keys
    && (forall k :: 0 <= k < |ids| ==>
          && ids[k] in rows && rows[ids[k]].product == p
          && rows'[ids[k]] == rows[ids[k]].(sortOrder := k, isPrimary := primary == Some(ids[k])))
    && (forall id :: id in rows && id !in ids ==>
          rows'[id] == if rows[id].product == p then rows[id].(isPrimary := false) else rows[id])
  }

  lemma ReorderedStep(before: Rows, rows: Rows, p: ProductId, ids: seq<ImageId>, i: nat, primary: Option<ImageId>)
    requires NoDuplicates(ids) && i < |ids| && Reordered(before, rows, p, ids[..i], primary)
    requires ids[i] in before && before[ids[i]].product == p
    ensures Reordered(before, rows[ids[i] := rows[ids[i]].(sortOrder := i, isPrimary := primary == Some(ids[i]))],
                      p, ids[..i + 1], primary)
  {
  }

  /** Part-way through the loop at most the effective primary is marked. */
  lemma ReorderedOnePrimary(before: Rows, rows: Rows, p: ProductId, ids: seq<ImageId>, primary: Option<ImageId>)
    requires OnePrimary(before) && Reordered(before, rows, p, ids, primary)
    ensures OnePrimary(rows)
  {
  }

  lemma {:induction false} LeastRow(rows: Rows, s: set<ImageId>) returns (x: ImageId)
    requires s != {} && s <= rows.Keys
    ensures x in s && forall y :: y in s ==> !Before(rows[y], rows[x])
    decreases |s|
  {
    x :| x in s;
    if s != {x} {
      var least := LeastRow(rows, s - {x});
      if Before(rows[least], rows[x]) {
        x := least;
      }
    }
  }

  class Store {
    var rows: Rows
    var copies: map<ProductId, Option<Image>>
    var pending: map<string, Pending>
    ghost var galleries: map<ProductId, seq<Picture>>

    constructor ()
      ensures Valid() && Contents() == State(map[], map[])
    {
      rows, copies, pending, galleries := map[], map[], map[], map[];
    }

    ghost function Contents(): State
      reads this
    {
      State(galleries, pending)
    }

    ghost predicate Valid()
      reads this
    {
      Refines(rows, copies, galleries)
    }

    /** SELECT ... ORDER BY is_primary DESC, sort_order ASC, created_at ASC. */
    method FetchProductImages(p: ProductId) returns (ids: seq<ImageId>)
      ensures SortedListing(rows, p, ids)
    {
      var left := set id | id in rows && rows[id].product == p;
      ids := [];
      while left != {}
        invariant NoDuplicates(ids)
        invariant forall id :: id in left ==> id in rows && rows[id].product == p && id !in ids
        invariant forall i :: 0 <= i < |ids| ==> ids[i] in rows && rows[ids[i]].product == p
        invariant forall id :: id in rows && rows[id].product == p ==> id in left || id in ids
        invariant forall i, j :: 0 <= i < j < |ids| ==> !Before(rows[ids[j]], rows[ids[i]])
        invariant forall i, y :: 0 <= i < |ids| && y in left ==> !Before(rows[y], rows[ids[i]])
        decreases left
      {
        ghost var least := LeastRow(rows, left);
        var x :| x in left && forall y :: y in left ==> !Before(rows[y], rows[x]);
        ids := ids + [x];
        left := left - {x};
      }
    }

    method ConsumePendingProductImage(image: Image, admin: AdminId, now: Time) returns (r: Result)
      modifies this`pending
      ensures r == Consume(old(Contents()), image, admin, now)
      ensures r == Done ==> pending == old(pending) - {image.publicId}
    {
      if !Uploaded(pending, image.publicId, admin, now) {
        return Failed(UploadInvalid);
      }
      var storedUrl := pending[image.publicId].url;
      pending := pending - {image.publicId};
      if storedUrl != image.url {
        return Failed(UrlMismatch);
      }
      return Done;
    }

    /** No statement ever leaves two primary rows for one product. */
    method ApplyProductImageOrder(p: ProductId, ids: seq<ImageId>, primary: Option<ImageId>) returns (ok: bool)
      requires NoDuplicates(ids) && OnePrimary(rows)
      modifies this`rows
      ensures OnePrimary(rows)
      ensures ok <==> forall k :: 0 <= k < |ids| ==> ids[k] in old(rows) && old(rows)[ids[k]].product == p
      ensures ok ==> Reordered(old(rows), rows, p, ids, if primary.None? && ids != [] then Some(ids[0]) else primary)
    {
      var effective := primary;
      if effective.None? && ids != [] {
        effective := Some(ids[0]);
      }
      ghost var before := rows;
      rows := Unmarked(rows, p);
      ReorderedOnePrimary(before, rows, p, ids[..0], effective);
      for i := 0 to |ids|
        invariant Reordered(before, rows, p, ids[..i], effective) && OnePrimary(rows)
      {
        SameProducts(before, rows, p, ids[..i], effective);
        if ids[i] !in rows || rows[ids[i]].product != p {
          return false;
        }
        ReorderedStep(before, rows, p, ids, i, effective);
        rows := rows[ids[i] := rows[ids[i]].(sortOrder := i, isPrimary := effective == Some(ids[i]))];
        ReorderedOnePrimary(before, rows, p, ids[..i + 1], effective);
      }
      assert ids[..|ids|] == ids;
      return true;
    }

    /** Copies the first row of the sorted listing to the product. */
    method SyncProductPrimaryImage(p: ProductId, ghost list: seq<Picture>)
      requires Shows(rows, p, list)
      modifies this`copies
      ensures copies == old(copies)[p := HeadImage(list)]
    {
      var ids := FetchProductImages(p);
      ListingIsGallery(rows, p, list, ids);
      if ids == [] {
        copies := copies[p := None];
      } else {
        assert ids[0] == list[0].id && HasPicture(rows, p, list, 0);
        copies := copies[p := Some(rows[ids[0]].image)];
      }
    }

    /** `iter().find(|image| image.is_primary)`. */
    method FindPrimary(ids: seq<ImageId>) returns (found: Option<ImageId>)
      requires forall i :: 0 <= i < |ids| ==> ids[i] in rows
      ensures found.None? ==> forall i :: 0 <= i < |ids| ==> !rows[ids[i]].isPrimary
      ensures found.Some? ==> found.value in ids && found.value in rows && rows[found.value].isPrimary
    {
      for i := 0 to |ids|
        invariant forall k :: 0 <= k < i ==> !rows[ids[k]].isPrimary
      {
        if rows[ids[i]].isPrimary {
          return Some(ids[i]);
        }
      }
      return None;
    }

    /** The last statements of attach, reorder and delete: number the rows along the list, mark its
        head, and copy it to the product. */
    method Renumber(p: ProductId, ids: seq<ImageId>, primary: Option<ImageId>, ghost list: seq<Picture>)
      requires OnePrimary(rows) && Covers(rows, p, list) && ids == Ids(list)
      requires list != [] ==> primary == Some(list[0].id)
      modifies this`rows, this`copies
      ensures Shows(rows, p, list) && OthersUntouched(old(rows), rows, p) && SameImages(old(rows), rows)
      ensures copies == old(copies)[p := HeadImage(list)]
    {
      CoveredPictures(rows, p, list);
      var ok := ApplyProductImageOrder(p, ids, primary);
      ReorderedShows(old(rows), rows, p, list, primary);
      SyncProductPrimaryImage(p, list);
    }

    /** The order and the primary image after adding a new row. */
    method PlaceNewImage(currentImages: seq<ImageId>, newId: ImageId, isPrimary: Option<bool>,
                         p: ProductId, ghost list: seq<Picture>)
      returns (orderedIds: seq<ImageId>, primaryImageId: Option<ImageId>)
      requires Shows(rows, p, list) && currentImages == Ids(list)
      ensures orderedIds == if isPrimary.GetOr(list == []) then [newId] + currentImages else currentImages + [newId]
      ensures primaryImageId == Some(orderedIds[0])
    {
      HeadIsPrimary(rows, p, list);
      var shouldBePrimary := isPrimary.GetOr(currentImages == []);
      primaryImageId := Some(newId);
      if !shouldBePrimary {
        var primary := FindPrimary(currentImages);
        primaryImageId := if primary.Some? then primary else Some(newId);
      }
      orderedIds := if shouldBePrimary then [newId] + currentImages else currentImages + [newId];
    }

    /** The statements of an attach once all checks have passed. */
    method InsertProductImage(p: ProductId, image: Image, isPrimary: Option<bool>, now: Time, newId: ImageId,
                              currentImages: seq<ImageId>)
      requires Valid() && newId !in rows && p in galleries && |galleries[p]| < MAX_PRODUCT_IMAGES
      requires currentImages == Ids(galleries[p])
      requires forall id :: id in rows ==> rows[id].image.publicId != image.publicId
      modifies this`rows, this`copies, this`galleries
      ensures Valid() && galleries == old(galleries)[p := Placed(old(galleries)[p], Picture(newId, image), isPrimary)]
    {
      ghost var list := galleries[p];
      var orderedIds, primaryImageId := PlaceNewImage(currentImages, newId, isPrimary, p, list);
      var row := Row(p, image, |currentImages|, false, now);
      rows := rows[newId := row];
      ghost var changed, list' := rows, Placed(list, Picture(newId, image), isPrimary);
      InsertRefines(old(rows), rows, copies, galleries, p, newId, row, list');
      assert orderedIds == Ids(list');
      Renumber(p, orderedIds, primaryImageId, list');
      RenumberedRefines(old(rows), changed, rows, old(copies), galleries, p, list');
      galleries := galleries[p := list'];
    }

    method AttachProductImage(p: ProductId, image: Image, isPrimary: Option<bool>, admin: AdminId, now: Time, newId: ImageId)
      returns (r: Result)
      requires Valid() && newId !in rows
      modifies this
      ensures Valid() && (Contents(), r) == Attach(old(Contents()), p, image, isPrimary, admin, now, newId)
    {
      if p !in copies {
        return Failed(ProductNotFound);
      }
      var pendingAtBegin := pending;
      r := ConsumePendingProductImage(image, admin, now);
      if r != Done {
        pending := pendingAtBegin;
        return;
      }
      var currentImages := FetchProductImages(p);
      ListingIsGallery(rows, p, galleries[p], currentImages);
      if |currentImages| >= MAX_PRODUCT_IMAGES {
        pending := pendingAtBegin;
        return Failed(TooManyImages);
      }
      UsesIsRow(rows, copies, galleries, image.publicId);
      if exists id :: id in rows && rows[id].image.publicId == image.publicId {
        pending := pendingAtBegin;
        return Failed(Conflict);
      }
      InsertProductImage(p, image, isPrimary, now, newId, currentImages);
      return Done;
    }

    method ReorderRows(p: ProductId, imageIds: seq<ImageId>)
      requires Valid() && p in galleries && IsPermutation(imageIds, galleries[p]) && galleries[p] != []
      modifies this`rows, this`copies, this`galleries
      ensures Valid() && galleries == old(galleries)[p := Arrange(old(galleries)[p], imageIds)]
    {
      ghost var list' := Arrange(galleries[p], imageIds);
      ArrangeCovers(rows, p, galleries[p], imageIds);
      RefinesOnePrimary(rows, copies, galleries);
      Renumber(p, imageIds, Some(imageIds[0]), list');
      RenumberedRefines(old(rows), old(rows), rows, old(copies), galleries, p, list');
      galleries := galleries[p := list'];
    }

    /** The checks of the source compare sizes of hash sets. */
    method ReorderProductImages(p: ProductId, imageIds: seq<ImageId>) returns (r: Result)
      requires Valid()
      modifies this
      ensures Valid() && (Contents(), r) == Reorder(old(Contents()), p, imageIds)
    {
      if p !in copies {
        return Failed(ProductNotFound);
      }
      var currentImages := FetchProductImages(p);
      ListingIsGallery(rows, p, galleries[p], currentImages);
      if currentImages == [] {
        return Failed(NoImages);
      }
      var currentIds, requestedIds := Members(currentImages), Members(imageIds);
      ShownListing(rows, p, galleries[p]);
      PermutationBySizes(currentImages, imageIds);
      SamePermutation(imageIds, galleries[p]);
      if |currentIds| != |requestedIds| || |currentIds| != |currentImages| || |imageIds| != |currentImages|
         || !(currentIds <= requestedIds) {
        return Failed(NotAPermutation);
      }
      ReorderRows(p, imageIds);
      return Done;
    }

    /** The row to delete: the one asked for, or the primary one. */
    method ChooseTarget(currentImages: seq<ImageId>, imageId: Option<ImageId>, p: ProductId, ghost list: seq<Picture>)
      returns (target: ImageId)
      requires Shows(rows, p, list) && currentImages == Ids(list) && list != []
      requires imageId.Some? ==> imageId.value in currentImages
      ensures target == imageId.GetOr(list[0].id) && target in currentImages
    {
      HeadIsPrimary(rows, p, list);
      if imageId.Some? {
        target := imageId.value;
      } else {
        target := currentImages[0];
        var primary := FindPrimary(currentImages);
        if primary.Some? {
          target := primary.value;
        }
      }
    }

    method DeleteRow(p: ProductId, currentImages: seq<ImageId>, i: nat)
      requires Valid() && p in galleries && currentImages == Ids(galleries[p]) && i < |currentImages|
      modifies this`rows, this`copies, this`galleries
      ensures Valid() && galleries == old(galleries)[p := Without(old(galleries)[p], i)]
    {
      var orderedIds := currentImages[..i] + currentImages[i + 1..];
      ghost var list' := Without(galleries[p], i);
      assert orderedIds == Ids(list');
      var primaryImageId := if orderedIds == [] then None else Some(orderedIds[0]);
      rows := rows - {currentImages[i]};
      ghost var changed := rows;
      DeleteRefines(old(rows), rows, copies, galleries, p, galleries[p], i);
      Renumber(p, orderedIds, primaryImageId, list');
      RenumberedRefines(old(rows), changed, rows, old(copies), galleries, p, list');
      galleries := galleries[p := list'];
    }

    method DeleteProductImageInternal(p: ProductId, imageId: Option<ImageId>) returns (r: Result)
      requires Valid()
      modifies this
      ensures Valid() && (Contents(), r) == Delete(old(Contents()), p, imageId)
    {
      if p !in copies {
        return Failed(ProductNotFound);
      }
      ghost var list := galleries[p];
      var currentImages := FetchProductImages(p);
      ListingIsGallery(rows, p, list, currentImages);
      if currentImages == [] {
        return Failed(NoImages);  // no rows, hence no copied fields either
      }
      if imageId.Some? && imageId.value !in currentImages {
        return Failed(ImageNotFound);
      }
      DeleteTarget(p, currentImages, imageId);
      return Done;
    }

    method DeleteTarget(p: ProductId, currentImages: seq<ImageId>, imageId: Option<ImageId>)
      requires Valid() && p in galleries && galleries[p] != [] && currentImages == Ids(galleries[p])
      requires imageId.Some? ==> imageId.value in currentImages
      modifies this`rows, this`copies, this`galleries
      ensures Valid()
      ensures galleries == old(galleries)[p := Without(old(galleries)[p],
                                                       if imageId.Some? then Galleries.Find(old(galleries)[p], imageId.value) else 0)]
    {
      ghost var list := galleries[p];
      var target := ChooseTarget(currentImages, imageId, p, list);
      var i := IndexOf(currentImages, target);
      ShownListing(rows, p, list);
      TargetPosition(list, imageId, i);
      DeleteRow(p, currentImages, i);
    }

    /** The first three statements: clear the flags, delete the old primary row, make room in front. */
    method RetirePrimary(p: ProductId, oldPublicId: Option<string>)
      requires Valid() && p in galleries
      requires oldPublicId == if copies[p].Some? then Some(copies[p].value.publicId) else None
      modifies this`rows
      ensures HeadGone(old(rows), rows, p, galleries[p]) && OthersUntouched(old(rows), rows, p)
    {
      rows := Unmarked(rows, p);
      if oldPublicId.Some? {
        rows := Deleted(rows, p, oldPublicId.value);
      }
      rows := MovedBack(rows, p);
      Retired(old(rows), p, galleries[p]);
    }

    method ReplacePrimaryProductImage(p: ProductId, oldPublicId: Option<string>, image: Image, now: Time, newId: ImageId)
      requires Valid() && p in galleries && newId !in rows
      requires oldPublicId == if copies[p].Some? then Some(copies[p].value.publicId) else None
      requires forall id :: id in rows ==> rows[id].image.publicId != image.publicId
      modifies this`rows, this`copies, this`galleries
      ensures Valid()
      ensures galleries == old(galleries)[p := Headed(old(galleries)[p], Picture(newId, image))]
    {
      ghost var list, list' := galleries[p], Headed(galleries[p], Picture(newId, image));
      RetirePrimary(p, oldPublicId);
      ghost var shifted := rows;
      var row := Row(p, image, 0, true, now);
      rows := rows[newId := row];
      ReplacedShows(old(rows), shifted, rows, p, list, newId, row);
      ReplacedOthers(old(rows), shifted, rows, p, list, newId, row);
      SyncProductPrimaryImage(p, list');
      RefinesUpdate(old(rows), rows, old(copies), galleries, p, list');
      galleries := galleries[p := list'];
    }

    /** The image part of `update_product`. */
    method UpdateProductImage(p: ProductId, incoming: Option<Image>, admin: AdminId, now: Time, newId: ImageId) returns (r: Result)
      requires Valid() && newId !in rows
      modifies this
      ensures Valid() && (Contents(), r) == UpdateImage(old(Contents()), p, incoming, admin, now, newId)
    {
      if p !in copies {
        return Failed(ProductNotFound);
      }
      if incoming.None? {
        return Done;
      }
      var image, existing := incoming.value, copies[p];
      var existingPublicId := if existing.Some? then Some(existing.value.publicId) else None;
      if existingPublicId == Some(image.publicId) {
        if image.url != existing.value.url {
          return Failed(UrlNotPrimary);
        }
        return Done;
      }
      var pendingAtBegin := pending;
      r := ConsumePendingProductImage(image, admin, now);
      if r != Done {
        pending := pendingAtBegin;
        return;
      }
      UsesIsRow(rows, copies, galleries, image.publicId);
      if exists id :: id in rows && rows[id].image.publicId == image.publicId {
        pending := pendingAtBegin;
        return Failed(Conflict);
      }
      ReplacePrimaryProductImage(p, existingPublicId, image, now, newId);
      return Done;
    }

    method CreateProductImage(p: ProductId, image: Option<Image>, admin: AdminId, now: Time, newId: ImageId) returns (r: Result)
      requires Valid() && newId !in rows && p !in galleries
      modifies this
      ensures Valid() && (Contents(), r) == CreateProduct(old(Contents()), p, image, admin, now, newId)
    {
      NoRowsYet(rows, copies, galleries, p);
      if image.None? {
        copies := copies[p := None];
        EmptyGalleryRefines(rows, old(copies), galleries, p);
        galleries := galleries[p := []];
        return Done;
      }
      var pendingAtBegin := pending;
      r := ConsumePendingProductImage(image.value, admin, now);
      if r != Done {
        pending := pendingAtBegin;
        return;
      }
      UsesIsRow(rows, copies, galleries, image.value.publicId);
      if exists id :: id in rows && rows[id].image.publicId == image.value.publicId {
        pending := pendingAtBegin;
        return Failed(Conflict);
      }
      copies := copies[p := image];
      rows := rows[newId := Row(p, image.value, 0, true, now)];
      FirstImageRefines(old(rows), old(copies), galleries, p, newId, rows[newId]);
      galleries := galleries[p := [Picture(newId, image.value)]];
      return Done;
    }

    /** An upload that has reached the image host; uploading it again renews the entry. */
    method SavePendingProductImage(publicId: string, upload: Pending)
      requires Valid()
      modifies this`pending
      ensures Valid() && pending == old(pending)[publicId := upload]
    {
      pending := pending[publicId := upload];
    }
  }

  method IndexOf(ids: seq<ImageId>, id: ImageId) returns (i: nat)
    requires id in ids
    ensures i < |ids| && ids[i] == id
  {
    i := 0;
    while ids[i] != id
      invariant i < |ids| && id in ids[i..]
      decreases |ids| - i
    {
      i := i + 1;
    }
  }

  lemma TargetPosition(list: seq<Picture>, imageId: Option<ImageId>, i: nat)
    requires NoDuplicates(Ids(list)) && list != [] && (imageId.Some? ==> imageId.value in Ids(list))
    requires i < |list| && list[i].id == imageId.GetOr(list[0].id)
    ensures i == if imageId.Some? then Galleries.Find(list, imageId.value) else 0
  {
  }

  // ---- lemmas about the statements ----

  /** The rows of p are exactly the pictures of the list, whatever their numbers and flags. */
  ghost predicate Covers(rows: Rows, p: ProductId, list: seq<Picture>) {
    && NoDuplicates(Ids(list))
    && (forall i :: 0 <= i < |list| ==> Holds(rows, p, list[i]))
    && (forall id :: id in rows && rows[id].product == p ==> id in Ids(list))
  }

  ghost predicate Holds(rows: Rows, p: ProductId, picture: Picture) {
    picture.id in rows && rows[picture.id].product == p && rows[picture.id].image == picture.image
  }

  ghost predicate SameImages(rows: Rows, rows': Rows) {
    rows'.Keys == rows.Keys && forall id :: id in rows ==> rows'[id].image == rows[id].image
  }

  lemma CoveredPictures(rows: Rows, p: ProductId, list: seq<Picture>)
    requires Covers(rows, p, list)
    ensures forall k :: 0 <= k < |list| ==> Ids(list)[k] in rows && rows[Ids(list)[k]].product == p
  {
  }

  lemma ShownCovers(rows: Rows, p: ProductId, list: seq<Picture>)
    requires Shows(rows, p, list)
    ensures Covers(rows, p, list)
  {
    ShownListing(rows, p, list);
    forall i | 0 <= i < |list| ensures Holds(rows, p, list[i]) {
      assert HasPicture(rows, p, list, i);
    }
  }

  lemma ReorderedShows(rows: Rows, rows': Rows, p: ProductId, list: seq<Picture>, primary: Option<ImageId>)
    requires Covers(rows, p, list) && (list != [] ==> primary == Some(list[0].id))
    requires Reordered(rows, rows', p, Ids(list), primary)
    ensures Shows(rows', p, list) && OthersUntouched(rows, rows', p) && SameImages(rows, rows')
  {
  }

  lemma HeadIsPrimary(rows: Rows, p: ProductId, list: seq<Picture>)
    requires Shows(rows, p, list)
    ensures forall i :: 0 <= i < |list| ==> Ids(list)[i] in rows && (rows[Ids(list)[i]].isPrimary <==> i == 0)
  {
    forall i | 0 <= i < |list| ensures Ids(list)[i] in rows && (rows[Ids(list)[i]].isPrimary <==> i == 0) {
      assert HasPicture(rows, p, list, i);
    }
  }

  lemma InsertHolds(rows: Rows, rows': Rows, p: ProductId, list: seq<Picture>, newId: ImageId, row: Row, list': seq<Picture>)
    requires Covers(rows, p, list) && newId !in rows && rows' == rows[newId := row] && row.product == p
    requires list' == [Picture(newId, row.image)] + list || list' == list + [Picture(newId, row.image)]
    ensures forall i :: 0 <= i < |list'| ==> Holds(rows', p, list'[i])
  {
    forall i | 0 <= i < |list'| ensures Holds(rows', p, list'[i]) {
      if list'[i].id != newId {
        assert list'[i] in list;
        var k :| 0 <= k < |list| && list[k] == list'[i];
        assert Holds(rows, p, list[k]);
      }
    }
  }

  lemma InsertDistinct(rows: Rows, p: ProductId, list: seq<Picture>, newId: ImageId, picture: Picture)
    requires Covers(rows, p, list) && newId !in rows && picture.id == newId
    ensures Ids([picture] + list) == [newId] + Ids(list) && NoDuplicates([newId] + Ids(list))
    ensures Ids(list + [picture]) == Ids(list) + [newId] && NoDuplicates(Ids(list) + [newId])
  {
    forall i | 0 <= i < |list| ensures list[i].id != newId {
      assert Holds(rows, p, list[i]);
    }
  }

  lemma InsertCovers(rows: Rows, rows': Rows, p: ProductId, list: seq<Picture>, newId: ImageId, row: Row, list': seq<Picture>)
    requires Shows(rows, p, list) && newId !in rows && OnePrimary(rows)
    requires rows' == rows[newId := row] && row.product == p && !row.isPrimary
    requires list' == [Picture(newId, row.image)] + list || list' == list + [Picture(newId, row.image)]
    ensures Covers(rows', p, list') && OnePrimary(rows') && OthersUntouched(rows, rows', p)
  {
    ShownCovers(rows, p, list);
    InsertHolds(rows, rows', p, list, newId, row, list');
    InsertDistinct(rows, p, list, newId, Picture(newId, row.image));
  }

  lemma InsertRefines(rows: Rows, rows': Rows, copies: map<ProductId, Option<Image>>, galleries: map<ProductId, seq<Picture>>,
                      p: ProductId, newId: ImageId, row: Row, list': seq<Picture>)
    requires Refines(rows, copies, galleries) && p in galleries && newId !in rows
    requires rows' == rows[newId := row] && row.product == p && !row.isPrimary
    requires forall id :: id in rows ==> rows[id].image.publicId != row.image.publicId
    requires list' == [Picture(newId, row.image)] + galleries[p] || list' == galleries[p] + [Picture(newId, row.image)]
    ensures Covers(rows', p, list') && OnePrimary(rows') && OthersUntouched(rows, rows', p) && UniquePublicIds(rows')
  {
    RefinesOnePrimary(rows, copies, galleries);
    InsertCovers(rows, rows', p, galleries[p], newId, row, list');
  }

  lemma DeleteRefines(rows: Rows, rows': Rows, copies: map<ProductId, Option<Image>>, galleries: map<ProductId, seq<Picture>>,
                      p: ProductId, list: seq<Picture>, at: nat)
    requires Refines(rows, copies, galleries) && p in galleries && list == galleries[p]
    requires at < |list| && rows' == rows - {list[at].id}
    ensures Covers(rows', p, Without(list, at)) && OnePrimary(rows') && OthersUntouched(rows, rows', p) && UniquePublicIds(rows')
  {
    RefinesOnePrimary(rows, copies, galleries);
    DeleteCovers(rows, rows', p, list, at);
  }

  /** From the rows at BEGIN through the changed rows to the renumbered ones. */
  lemma RenumberedRefines(rows: Rows, changed: Rows, rows': Rows, copies: map<ProductId, Option<Image>>,
                          galleries: map<ProductId, seq<Picture>>, p: ProductId, list': seq<Picture>)
    requires Refines(rows, copies, galleries)
    requires p in galleries && OthersUntouched(rows, changed, p) && OthersUntouched(changed, rows', p)
    requires UniquePublicIds(changed) && SameImages(changed, rows')
    requires Shows(rows', p, list') && |list'| <= MAX_PRODUCT_IMAGES
    ensures Refines(rows', copies[p := HeadImage(list')], galleries[p := list'])
  {
    RefinesUpdate(rows, rows', copies, galleries, p, list');
  }

  lemma DeleteCovers(rows: Rows, rows': Rows, p: ProductId, list: seq<Picture>, at: nat)
    requires Shows(rows, p, list) && at < |list| && rows' == rows - {list[at].id} && OnePrimary(rows)
    ensures Covers(rows', p, Without(list, at)) && OnePrimary(rows') && OthersUntouched(rows, rows', p)
  {
    ShownCovers(rows, p, list);
    assert Holds(rows, p, list[at]);
    var list' := Without(list, at);
    var ids := Ids(list);
    assert Ids(list') == ids[..at] + ids[at + 1..];
    forall i | 0 <= i < |list'| ensures Holds(rows', p, list'[i]) {
      var k := if i < at then i else i + 1;
      assert list'[i] == list[k] && Holds(rows, p, list[k]) && ids[k] != ids[at];
    }
    forall id | id in rows' && rows'[id].product == p ensures id in Ids(list') {
      var k :| 0 <= k < |ids| && ids[k] == id;
      assert k != at;
      assert Ids(list')[if k < at then k else k - 1] == id;
    }
  }

  lemma ArrangeCovers(rows: Rows, p: ProductId, list: seq<Picture>, ids: seq<ImageId>)
    requires Shows(rows, p, list) && IsPermutation(ids, list)
    ensures Covers(rows, p, Arrange(list, ids))
  {
    ShownCovers(rows, p, list);
    var list' := Arrange(list, ids);
    forall i | 0 <= i < |list'| ensures Holds(rows, p, list'[i]) {
      assert Holds(rows, p, list[Galleries.Find(list, ids[i])]);
    }
    PermutationCovers(Ids(list), ids);
  }

  /** After clearing the flags, deleting the old primary row and shifting the others. */
  ghost predicate HeadGone(rows: Rows, shifted: Rows, p: ProductId, list: seq<Picture>) {
    && (forall i :: 1 <= i < |list| ==> Shifted(rows, shifted, list[i].id))
    && (forall id :: id in shifted && shifted[id].product == p ==> id in rows && id in Ids(list) && id != list[0].id)
    && (forall id :: id in shifted ==> id in rows && shifted[id].image == rows[id].image && shifted[id].product == rows[id].product)
  }

  ghost predicate Shifted(rows: Rows, shifted: Rows, id: ImageId) {
    id in rows && id in shifted
    && shifted[id] == rows[id].(sortOrder := rows[id].sortOrder + 1, isPrimary := false)
  }

  lemma HeadDropped(rows: Rows, shifted: Rows, p: ProductId, list: seq<Picture>)
    requires Shows(rows, p, list) && UniquePublicIds(rows)
    requires forall id :: id in shifted <==>
      id in rows && (rows[id].product != p || list == [] || rows[id].image.publicId != list[0].image.publicId)
    requires forall id :: id in shifted && rows[id].product == p ==> Shifted(rows, shifted, id)
    requires forall id :: id in shifted && rows[id].product != p ==> shifted[id] == rows[id]
    ensures HeadGone(rows, shifted, p, list) && OthersUntouched(rows, shifted, p)
  {
    forall i | 0 <= i < |list| ensures HasPicture(rows, p, list, i) && (i > 0 ==> list[i].id != list[0].id) {
      assert HasPicture(rows, p, list, i);
      assert i > 0 ==> InOrder(rows, list, 0, i);
    }
  }

  lemma Retired(rows: Rows, p: ProductId, list: seq<Picture>)
    requires Shows(rows, p, list) && UniquePublicIds(rows)
    ensures var kept := if list == [] then Unmarked(rows, p) else Deleted(Unmarked(rows, p), p, list[0].image.publicId);
            HeadGone(rows, MovedBack(kept, p), p, list) && OthersUntouched(rows, MovedBack(kept, p), p)
  {
    var kept := if list == [] then Unmarked(rows, p) else Deleted(Unmarked(rows, p), p, list[0].image.publicId);
    HeadDropped(rows, MovedBack(kept, p), p, list);
  }

  /** At most one primary row per product after each of the four statements of a replacement. */
  lemma FlagsPerStatement(rows: Rows, p: ProductId, list: seq<Picture>, newId: ImageId, row: Row)
    requires OnePrimary(rows) && newId !in rows
    ensures OnePrimary(Unmarked(rows, p))
    ensures list != [] ==> OnePrimary(Deleted(Unmarked(rows, p), p, list[0].image.publicId))
    ensures var kept := if list == [] then Unmarked(rows, p) else Deleted(Unmarked(rows, p), p, list[0].image.publicId);
      OnePrimary(MovedBack(kept, p)) && (row.product == p ==> OnePrimary(MovedBack(kept, p)[newId := row]))
  {
  }

  lemma ReplacedCovers(rows: Rows, shifted: Rows, rows': Rows, p: ProductId, list: seq<Picture>, newId: ImageId, row: Row)
    requires HeadGone(rows, shifted, p, list) && newId !in rows && rows' == shifted[newId := row]
    ensures forall id :: id in rows' && rows'[id].product == p ==> id in Ids(Headed(list, Picture(newId, row.image)))
  {
    var list' := Headed(list, Picture(newId, row.image));
    forall id | id in rows' && rows'[id].product == p ensures id in Ids(list') {
      if id == newId {
        assert Ids(list')[0] == newId;
      } else {
        assert id in Ids(list) && id != list[0].id;
        var k :| 0 <= k < |list| && Ids(list)[k] == id;
        assert Ids(list')[k] == id;
      }
    }
  }

  lemma ReplacedOrder(rows: Rows, shifted: Rows, rows': Rows, p: ProductId, list: seq<Picture>, newId: ImageId, row: Row, i: nat, j: nat)
    requires Shows(rows, p, list) && HeadGone(rows, shifted, p, list) && newId !in rows
    requires rows' == shifted[newId := row] && row.sortOrder == 0
    requires i < j < |Headed(list, Picture(newId, row.image))|
    ensures InOrder(rows', Headed(list, Picture(newId, row.image)), i, j)
  {
    assert HasPicture(rows, p, list, j) && Shifted(rows, shifted, list[j].id);
    if i > 0 {
      assert Shifted(rows, shifted, list[i].id) && InOrder(rows, list, i, j);
    }
  }

  lemma ReplacedShows(rows: Rows, shifted: Rows, rows': Rows, p: ProductId, list: seq<Picture>, newId: ImageId, row: Row)
    requires Shows(rows, p, list) && HeadGone(rows, shifted, p, list)
    requires newId !in rows && rows' == shifted[newId := row]
    requires row.product == p && row.isPrimary && row.sortOrder == 0
    ensures Shows(rows', p, Headed(list, Picture(newId, row.image)))
  {
    var list' := Headed(list, Picture(newId, row.image));
    forall i | 0 <= i < |list'| ensures HasPicture(rows', p, list', i) {
      if i > 0 {
        assert HasPicture(rows, p, list, i) && Shifted(rows, shifted, list[i].id);
      }
    }
    forall i, j | 0 <= i < j < |list'| ensures InOrder(rows', list', i, j) {
      ReplacedOrder(rows, shifted, rows', p, list, newId, row, i, j);
    }
    ReplacedCovers(rows, shifted, rows', p, list, newId, row);
  }

  lemma ReplacedOthers(rows: Rows, shifted: Rows, rows': Rows, p: ProductId, list: seq<Picture>, newId: ImageId, row: Row)
    requires HeadGone(rows, shifted, p, list) && OthersUntouched(rows, shifted, p)
    requires newId !in rows && rows' == shifted[newId := row] && row.product == p
    requires UniquePublicIds(rows) && forall id :: id in rows ==> rows[id].image.publicId != row.image.publicId
    ensures OthersUntouched(rows, rows', p) && UniquePublicIds(rows')
  {
  }

  lemma NoRowsYet(rows: Rows, copies: map<ProductId, Option<Image>>, galleries: map<ProductId, seq<Picture>>, p: ProductId)
    requires Refines(rows, copies, galleries) && p !in galleries
    ensures forall id :: id in rows ==> rows[id].product != p
  {
  }

  lemma EmptyGalleryRefines(rows: Rows, copies: map<ProductId, Option<Image>>, galleries: map<ProductId, seq<Picture>>, p: ProductId)
    requires Refines(rows, copies, galleries) && p !in galleries
    ensures Refines(rows, copies[p := None], galleries[p := []])
  {
  }

  lemma FirstImageRefines(rows: Rows, copies: map<ProductId, Option<Image>>, galleries: map<ProductId, seq<Picture>>,
                          p: ProductId, newId: ImageId, row: Row)
    requires Refines(rows, copies, galleries) && p !in galleries && newId !in rows
    requires row.product == p && row.isPrimary && row.sortOrder == 0
    requires forall id :: id in rows ==> rows[id].image.publicId != row.image.publicId
    ensures Refines(rows[newId := row], copies[p := Some(row.image)], galleries[p := [Picture(newId, row.image)]])
  {
    var list', rows' := [Picture(newId, row.image)], rows[newId := row];
    NoRowsYet(rows, copies, galleries, p);
    assert Ids(list')[0] == newId;
    DenseRowsShow(rows', p, list');
    forall q | q in galleries ensures Shows(rows', q, galleries[q]) {
      OtherGalleriesStillShown(rows, rows', p, q, galleries[q]);
    }
  }

  lemma SamePermutation(ids: seq<ImageId>, list: seq<Picture>)
    ensures IsPermutation(ids, list)
       <==> (|ids| == |Ids(list)| && NoDuplicates(ids) && forall i :: 0 <= i < |ids| ==> ids[i] in Ids(list))
  {
  }

  lemma SameProducts(before: Rows, rows: Rows, p: ProductId, ids: seq<ImageId>, primary: Option<ImageId>)
    requires Reordered(before, rows, p, ids, primary)
    ensures forall id :: id in rows ==> rows[id].product == before[id].product && rows[id].image == before[id].image
  {
  }
}
