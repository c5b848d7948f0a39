// Galleries over whole runs: what every sequence of gallery operations keeps, and which of them
// undo each other.
module GalleryRuns {
  import opened Common
  import opened Galleries

  datatype Op =
    | UploadOp(publicId: string, upload: Pending)
    | CreateProductOp(product: ProductId, image: Option<Image>, admin: AdminId, now: Time, newId: ImageId)
    | AttachOp(product: ProductId, picture: Image, isPrimary: Option<bool>, admin: AdminId, now: Time, newId: ImageId)
    | ReorderOp(product: ProductId, ids: seq<ImageId>)
    | DeleteOp(product: ProductId, target: Option<ImageId>)
    | UpdateImageOp(product: ProductId, incoming: Option<Image>, admin: AdminId, now: Time, newId: ImageId)
    | CleanupOp(now: Time)

  ghost predicate Unused(s: State, id: ImageId) {
    forall p :: p in s.galleries ==> id !in Ids(s.galleries[p])
  }

  ghost predicate Possible(s: State, op: Op) {
    match op
    case CreateProductOp(p, _, _, _, newId) => p !in s.galleries && Unused(s, newId)
    case AttachOp(_, _, _, _, _, newId) => Unused(s, newId)
    case UpdateImageOp(_, _, _, _, newId) => Unused(s, newId)
    case _ => true
  }

  function Step(s: State, op: Op): State
    requires op.CreateProductOp? ==> op.product !in s.galleries
  {
    match op
    case UploadOp(publicId, upload) => s.(pending := s.pending[publicId := upload])
    case CreateProductOp(p, image, admin, now, newId) => CreateProduct(s, p, image, admin, now, newId).0
    case AttachOp(p, image, isPrimary, admin, now, newId) => Attach(s, p, image, isPrimary, admin, now, newId).0
    case ReorderOp(p, ids) => Reorder(s, p, ids).0
    case DeleteOp(p, target) => Delete(s, p, target).0
    case UpdateImageOp(p, incoming, admin, now, newId) => UpdateImage(s, p, incoming, admin, now, newId).0
    case CleanupOp(now) => s.(pending := map k | k in s.pending && s.pending[k].expiresAt > now :: s.pending[k])
  }

  // ---- one list ----

  ghost predicate DistinctPictures(list: seq<Picture>) {
    && |list| <= MAX_PRODUCT_IMAGES
    && forall i, j :: 0 <= i < j < |list| ==>
         list[i].id != list[j].id && list[i].image.publicId != list[j].image.publicId
  }

  /** Every picture of `after` is one of `before` or has this id and public id. */
  ghost predicate Within(after: seq<Picture>, before: seq<Picture>, id: ImageId, publicId: string) {
    forall x :: x in after ==> x in before || (x.id == id && x.image.publicId == publicId)
  }

  /** No picture of one list shares its id or its public id with one of the other. */
  ghost predicate Apart(a: seq<Picture>, b: seq<Picture>) {
    forall x, y :: x in a && y in b ==> x.id != y.id && x.image.publicId != y.image.publicId
  }

  ghost predicate Inv(s: State) {
    && (forall p :: p in s.galleries ==> DistinctPictures(s.galleries[p]))
    && (forall p, q :: p in s.galleries && q in s.galleries && p != q ==> Apart(s.galleries[p], s.galleries[q]))
  }

  lemma NewPicture(s: State, id: ImageId, publicId: string, p: ProductId, x: Picture)
    requires Unused(s, id) && !Uses(s.galleries, publicId) && p in s.galleries && x in s.galleries[p]
    ensures x.id != id && x.image.publicId != publicId
  {
  }

  /** Replacing one gallery by a list of its own pictures and at most one unused one. */
  lemma GalleryReplaced(s: State, p: ProductId, list: seq<Picture>, id: ImageId, publicId: string)
    requires Inv(s) && DistinctPictures(list)
    requires Within(list, if p in s.galleries then s.galleries[p] else [], id, publicId)
    requires (exists x :: x in list && (p !in s.galleries || x !in s.galleries[p])) ==>
               Unused(s, id) && !Uses(s.galleries, publicId)
    ensures Inv(s.(galleries := s.galleries[p := list]))
  {
  }

  ghost predicate Differs(list: seq<Picture>, picture: Picture) {
    forall x :: x in list ==> x.id != picture.id && x.image.publicId != picture.image.publicId
  }

  lemma NewDiffers(s: State, p: ProductId, picture: Picture)
    requires p in s.galleries && Unused(s, picture.id) && !Uses(s.galleries, picture.image.publicId)
    ensures Differs(s.galleries[p], picture)
  {
    forall x | x in s.galleries[p] ensures x.id != picture.id && x.image.publicId != picture.image.publicId {
      NewPicture(s, picture.id, picture.image.publicId, p, x);
    }
  }

  lemma PlacedDistinct(list: seq<Picture>, picture: Picture, isPrimary: Option<bool>)
    requires DistinctPictures(list) && |list| < MAX_PRODUCT_IMAGES && Differs(list, picture)
    ensures DistinctPictures(Placed(list, picture, isPrimary))
  {
  }

  lemma HeadedDistinct(list: seq<Picture>, picture: Picture)
    requires DistinctPictures(list) && Differs(list, picture)
    ensures DistinctPictures(Headed(list, picture))
  {
  }

  lemma ArrangeDistinct(list: seq<Picture>, ids: seq<ImageId>)
    requires DistinctPictures(list) && IsPermutation(ids, list)
    ensures DistinctPictures(Arrange(list, ids))
    ensures forall x :: x in Arrange(list, ids) ==> x in list
  {
  }

  lemma CreateKeepsInv(s: State, p: ProductId, image: Option<Image>, admin: AdminId, now: Time, newId: ImageId)
    requires Inv(s) && p !in s.galleries && Unused(s, newId)
    ensures Inv(CreateProduct(s, p, image, admin, now, newId).0)
  {
    var (s', r) := CreateProduct(s, p, image, admin, now, newId);
    if r == Done {
      GalleryReplaced(s, p, s'.galleries[p], newId, if image.Some? then image.value.publicId else "");
    }
  }

  lemma AttachKeepsInv(s: State, p: ProductId, image: Image, isPrimary: Option<bool>, admin: AdminId, now: Time, newId: ImageId)
    requires Inv(s) && Unused(s, newId)
    ensures Inv(Attach(s, p, image, isPrimary, admin, now, newId).0)
  {
    var (s', r) := Attach(s, p, image, isPrimary, admin, now, newId);
    if r == Done {
      NewDiffers(s, p, Picture(newId, image));
      PlacedDistinct(s.galleries[p], Picture(newId, image), isPrimary);
      GalleryReplaced(s, p, s'.galleries[p], newId, image.publicId);
    }
  }

  lemma ReorderKeepsInv(s: State, p: ProductId, ids: seq<ImageId>)
    requires Inv(s)
    ensures Inv(Reorder(s, p, ids).0)
  {
    if Reorder(s, p, ids).1 == Done {
      ArrangeDistinct(s.galleries[p], ids);
      GalleryReplaced(s, p, Arrange(s.galleries[p], ids), 0, "");
    }
  }

  lemma WithoutDistinct(list: seq<Picture>, i: nat)
    requires DistinctPictures(list) && i < |list|
    ensures DistinctPictures(Without(list, i)) && forall x :: x in Without(list, i) ==> x in list
  {
  }

  lemma DeleteKeepsInv(s: State, p: ProductId, target: Option<ImageId>)
    requires Inv(s)
    ensures Inv(Delete(s, p, target).0)
  {
    if Delete(s, p, target).1 == Done {
      var list := s.galleries[p];
      var i := if target.Some? then Find(list, target.value) else 0;
      WithoutDistinct(list, i);
      GalleryReplaced(s, p, Without(list, i), 0, "");
    }
  }

  lemma UpdateKeepsInv(s: State, p: ProductId, incoming: Option<Image>, admin: AdminId, now: Time, newId: ImageId)
    requires Inv(s) && Unused(s, newId)
    ensures Inv(UpdateImage(s, p, incoming, admin, now, newId).0)
  {
    var (s', r) := UpdateImage(s, p, incoming, admin, now, newId);
    if s' != s {
      NewDiffers(s, p, Picture(newId, incoming.value));
      HeadedDistinct(s.galleries[p], Picture(newId, incoming.value));
      GalleryReplaced(s, p, s'.galleries[p], newId, incoming.value.publicId);
    }
  }

  lemma StepKeepsInv(s: State, op: Op)
    requires Inv(s) && Possible(s, op)
    ensures Inv(Step(s, op))
  {
    match op
    case UploadOp(publicId, upload) =>
    case CleanupOp(now) =>
    case CreateProductOp(p, image, admin, now, newId) => CreateKeepsInv(s, p, image, admin, now, newId);
    case AttachOp(p, image, isPrimary, admin, now, newId) => AttachKeepsInv(s, p, image, isPrimary, admin, now, newId);
    case ReorderOp(p, ids) => ReorderKeepsInv(s, p, ids);
    case DeleteOp(p, target) => DeleteKeepsInv(s, p, target);
    case UpdateImageOp(p, incoming, admin, now, newId) => UpdateKeepsInv(s, p, incoming, admin, now, newId);
  }

  ghost predicate ValidRun(s: State, ops: seq<Op>)
    decreases |ops|
  {
    ops == [] || (Possible(s, ops[0]) && ValidRun(Step(s, ops[0]), ops[1..]))
  }

  ghost function Run(s: State, ops: seq<Op>): State
    requires ValidRun(s, ops)
    decreases |ops|
  {
    if ops == [] then s else Run(Step(s, ops[0]), ops[1..])
  }

  lemma {:induction false} RunKeepsInv(s: State, ops: seq<Op>)
    requires Inv(s) && ValidRun(s, ops)
    ensures Inv(Run(s, ops))
    decreases |ops|
  {
    if ops != [] {
      StepKeepsInv(s, ops[0]);
      RunKeepsInv(Step(s, ops[0]), ops[1..]);
    }
  }

  /** In every reachable state a product has at most four images, and no image, by row or by
      public id, appears twice anywhere. */
  lemma ReachableGalleries(ops: seq<Op>, p: ProductId, i: nat, q: ProductId, j: nat)
    requires ValidRun(State(map[], map[]), ops)
    requires var g := Run(State(map[], map[]), ops).galleries;
             p in g && q in g && i < |g[p]| && j < |g[q]| && (p != q || i != j)
    ensures var g := Run(State(map[], map[]), ops).galleries;
      && |g[p]| <= MAX_PRODUCT_IMAGES
      && g[p][i].id != g[q][j].id && g[p][i].image.publicId != g[q][j].image.publicId
  {
    RunKeepsInv(State(map[], map[]), ops);
    var g := Run(State(map[], map[]), ops).galleries;
    assert DistinctPictures(g[p]);
    if p != q {
      assert Apart(g[p], g[q]) && g[p][i] in g[p] && g[q][j] in g[q];
    }
  }

  // ---- operations that undo each other ----

  /** Reordering and reordering back restores the gallery. */
  lemma ReorderUndone(list: seq<Picture>, ids: seq<ImageId>)
    requires DistinctPictures(list) && IsPermutation(ids, list)
    ensures IsPermutation(Ids(list), Arrange(list, ids))
    ensures Arrange(Arrange(list, ids), Ids(list)) == list
  {
    PermutationCovers(Ids(list), ids);
    forall i | 0 <= i < |list| ensures list[i].id in ids {
      assert Ids(list)[i] == list[i].id;
    }
    var list' := Arrange(list, ids);
    assert Ids(list') == ids;
    forall i | 0 <= i < |list| ensures Arrange(list', Ids(list))[i] == list[i] {
      var k := Find(list', list[i].id);
      assert list'[k].id == list[i].id && list'[k] == list[Find(list, ids[k])];
      assert list[Find(list, ids[k])].id == list[i].id;
    }
  }

  /** Deleting the image just attached restores the gallery. */
  lemma AttachThenDelete(s: State, p: ProductId, image: Image, isPrimary: Option<bool>, admin: AdminId, now: Time, newId: ImageId)
    requires Unused(s, newId) && Attach(s, p, image, isPrimary, admin, now, newId).1 == Done
    ensures var s' := Attach(s, p, image, isPrimary, admin, now, newId).0;
      Delete(s', p, Some(newId)).1 == Done && Delete(s', p, Some(newId)).0.galleries == s.galleries
  {
    var list := s.galleries[p];
    var list' := Placed(list, Picture(newId, image), isPrimary);
    var at := if list'[0].id == newId then 0 else |list|;
    assert list'[at] == Picture(newId, image) by {
      if list' == list + [Picture(newId, image)] && |list| > 0 {
        assert Ids(list)[0] == list[0].id;
      }
    }
    forall k | 0 <= k < |list| ensures list[k].id != newId {
      assert Ids(list)[k] == list[k].id;
    }
    assert Ids(list')[at] == newId;
    assert Find(list', newId) == at;
    assert Without(list', at) == list;
    assert s.galleries[p := list'][p := list] == s.galleries;
  }

  /** An image enters a gallery only through an unexpired upload by the same admin with the same
      address, and the upload is used up. */
  lemma AttachNeedsUpload(s: State, p: ProductId, image: Image, isPrimary: Option<bool>, admin: AdminId, now: Time, newId: ImageId)
    requires Attach(s, p, image, isPrimary, admin, now, newId).1 == Done
    ensures image.publicId in s.pending && s.pending[image.publicId].uploadedBy == admin
         && s.pending[image.publicId].expiresAt > now && s.pending[image.publicId].url == image.url
    ensures image.publicId !in Attach(s, p, image, isPrimary, admin, now, newId).0.pending
    ensures Attach(Attach(s, p, image, isPrimary, admin, now, newId).0, p, image, isPrimary, admin, now, newId).1 == Failed(UploadInvalid)
  {
  }
}
