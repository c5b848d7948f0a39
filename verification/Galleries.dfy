// src/product/service.rs: the image gallery of a product, as the ordered list it stands for.
module Galleries {
  import opened Common

  type ImageId = nat
  type ProductId = nat
  type AdminId = nat

  const MAX_PRODUCT_IMAGES: nat := 4

  datatype Image = Image(url: string, publicId: string)

  /** One entry of a gallery. */
  datatype Picture = Picture(id: ImageId, image: Image)

  datatype Pending = Pending(url: string, uploadedBy: AdminId, expiresAt: Time)

  /** What the tables mean: an ordered list per product, its head the primary image, and the
      uploads waiting to be used. */
  datatype State = State(galleries: map<ProductId, seq<Picture>>, pending: map<string, Pending>)

  datatype Error =
    | ProductNotFound | UploadInvalid | UrlMismatch | UrlNotPrimary | TooManyImages | NoImages
    | NotAPermutation | ImageNotFound
    | Conflict          // unique index on image_public_id: the transaction aborts

  datatype Result = Done | Failed(error: Error)

  function Ids(list: seq<Picture>): (ids: seq<ImageId>)
    ensures |ids| == |list| && forall i :: 0 <= i < |list| ==> ids[i] == list[i].id
  {
    seq(|list|, i requires 0 <= i < |list| => list[i].id)
  }

  predicate Uses(galleries: map<ProductId, seq<Picture>>, publicId: string) {
    exists p, i :: p in galleries && 0 <= i < |galleries[p]| && galleries[p][i].image.publicId == publicId
  }

  /** DELETE ... WHERE public_id, uploaded_by, not expired RETURNING secure_url. */
  predicate Uploaded(pending: map<string, Pending>, publicId: string, admin: AdminId, now: Time) {
    publicId in pending && pending[publicId].uploadedBy == admin && pending[publicId].expiresAt > now
  }

  function Consume(s: State, image: Image, admin: AdminId, now: Time): Result {
    if !Uploaded(s.pending, image.publicId, admin, now) then Failed(UploadInvalid)
    else if s.pending[image.publicId].url != image.url then Failed(UrlMismatch)
    else Done
  }

  // ---- the service functions on lists ----

  function CreateProduct(s: State, p: ProductId, image: Option<Image>, admin: AdminId, now: Time, newId: ImageId): (State, Result)
    requires p !in s.galleries
  {
    if image.None? then (s.(galleries := s.galleries[p := []]), Done)
    else
      var r := Consume(s, image.value, admin, now);
      if r != Done then (s, r)
      else if Uses(s.galleries, image.value.publicId) then (s, Failed(Conflict))
      else (State(s.galleries[p := [Picture(newId, image.value)]], s.pending - {image.value.publicId}), Done)
  }

  function Attach(s: State, p: ProductId, image: Image, isPrimary: Option<bool>, admin: AdminId, now: Time,
                  newId: ImageId): (State, Result) {
    if p !in s.galleries then (s, Failed(ProductNotFound))
    else
      var r, list := Consume(s, image, admin, now), s.galleries[p];
      if r != Done then (s, r)
      else if |list| >= MAX_PRODUCT_IMAGES then (s, Failed(TooManyImages))
      else if Uses(s.galleries, image.publicId) then (s, Failed(Conflict))
      else
        (State(s.galleries[p := Placed(list, Picture(newId, image), isPrimary)], s.pending - {image.publicId}), Done)
  }

  /** A new image goes to the front if asked for as primary, or if it is the first. */
  function Placed(list: seq<Picture>, picture: Picture, isPrimary: Option<bool>): seq<Picture> {
    if isPrimary.GetOr(list == []) then [picture] + list else list + [picture]
  }

  predicate NoDuplicates<T(==)>(s: seq<T>) {
    forall i, j :: 0 <= i < j < |s| ==> s[i] != s[j]
  }

  predicate IsPermutation(ids: seq<ImageId>, list: seq<Picture>) {
    && |ids| == |list| && NoDuplicates(ids)
    && forall i :: 0 <= i < |ids| ==> ids[i] in Ids(list)
  }

  function Find(list: seq<Picture>, id: ImageId): (i: nat)
    requires id in Ids(list)
    ensures i < |list| && list[i].id == id
  {
    if list[0].id == id then 0
    else
      assert exists k :: 0 < k < |list| && Ids(list)[k] == id;
      assert forall k :: 0 <= k < |list| - 1 ==> Ids(list[1..])[k] == Ids(list)[k + 1];
      assert id in Ids(list[1..]) by {
        var k :| 0 < k < |list| && Ids(list)[k] == id;
        assert Ids(list[1..])[k - 1] == id;
      }
      1 + Find(list[1..], id)
  }

  /** The pictures in the requested order. */
  function Arrange(list: seq<Picture>, ids: seq<ImageId>): (list': seq<Picture>)
    requires IsPermutation(ids, list)
    ensures Ids(list') == ids
  {
    seq(|ids|, i requires 0 <= i < |ids| => list[Find(list, ids[i])])
  }

  function Reorder(s: State, p: ProductId, ids: seq<ImageId>): (State, Result) {
    if p !in s.galleries then (s, Failed(ProductNotFound))
    else if s.galleries[p] == [] then (s, Failed(NoImages))
    else if !IsPermutation(ids, s.galleries[p]) then (s, Failed(NotAPermutation))
    else (s.(galleries := s.galleries[p := Arrange(s.galleries[p], ids)]), Done)
  }

  function Without(list: seq<Picture>, i: nat): seq<Picture>
    requires i < |list|
  {
    list[..i] + list[i + 1..]
  }

  /** Removes the image with the given id, or the primary one. */
  function Delete(s: State, p: ProductId, id: Option<ImageId>): (State, Result) {
    if p !in s.galleries then (s, Failed(ProductNotFound))
    else
      var list := s.galleries[p];
      if list == [] then (s, Failed(NoImages))
      else if id.Some? && id.value !in Ids(list) then (s, Failed(ImageNotFound))
      else
        var i := if id.Some? then Find(list, id.value) else 0;
        (s.(galleries := s.galleries[p := Without(list, i)]), Done)
  }

  /** The image part of a product update: a new primary image takes the head's place. */
  function UpdateImage(s: State, p: ProductId, incoming: Option<Image>, admin: AdminId, now: Time, newId: ImageId): (State, Result) {
    if p !in s.galleries then (s, Failed(ProductNotFound))
    else if incoming.None? then (s, Done)
    else
      var image, list := incoming.value, s.galleries[p];
      if list != [] && list[0].image.publicId == image.publicId then
        (s, if list[0].image.url == image.url then Done else Failed(UrlNotPrimary))
      else
        var r := Consume(s, image, admin, now);
        if r != Done then (s, r)
        else if Uses(s.galleries, image.publicId) then (s, Failed(Conflict))
        else
          (State(s.galleries[p := Headed(list, Picture(newId, image))], s.pending - {image.publicId}), Done)
  }

  /** The list with another head. */
  function Headed(list: seq<Picture>, picture: Picture): seq<Picture> {
    [picture] + if list == [] then [] else list[1..]
  }

  // ---- permutations by sizes of sets ----

  function Members(s: seq<ImageId>): set<ImageId> {
    set x | x in s
  }

  lemma {:induction false} SetSize(s: seq<ImageId>)
    ensures |Members(s)| <= |s|
    ensures |Members(s)| == |s| <==> NoDuplicates(s)
  {
    if s != [] {
      var n := |s| - 1;
      var rest := s[..n];
      SetSize(rest);
      assert s == rest + [s[n]];
      assert Members(s) == Members(rest) + {s[n]};
      if s[n] in rest {
        assert Members(s) == Members(rest);
      }
    }
  }

  lemma SubsetOfSameSize(a: set<ImageId>, b: set<ImageId>)
    requires a <= b && |a| == |b|
    ensures a == b
  {
    assert |b - a| == |b| - |a|;
  }

  lemma PermutationCovers(current: seq<ImageId>, ids: seq<ImageId>)
    requires NoDuplicates(current) && NoDuplicates(ids) && |ids| == |current|
    requires forall i :: 0 <= i < |ids| ==> ids[i] in current
    ensures forall x :: x in current ==> x in ids
  {
    SetSize(current);
    SetSize(ids);
    SubsetOfSameSize(Members(ids), Members(current));
    forall x | x in current ensures x in ids {
      assert x in Members(current);
    }
  }

  /** The source's four size and subset tests accept exactly the permutations. */
  lemma PermutationBySizes(current: seq<ImageId>, ids: seq<ImageId>)
    requires NoDuplicates(current)
    ensures var a, b := Members(current), Members(ids);
      (|a| == |b| && |a| == |current| && |ids| == |current| && a <= b)
      <==> (|ids| == |current| && NoDuplicates(ids) && forall i :: 0 <= i < |ids| ==> ids[i] in current)
  {
    var a, b := Members(current), Members(ids);
    SetSize(current);
    SetSize(ids);
    if |a| == |b| && |a| == |current| && |ids| == |current| && a <= b {
      SubsetOfSameSize(a, b);
      forall i | 0 <= i < |ids| ensures ids[i] in current {
        assert ids[i] in b;
      }
    }
    if |ids| == |current| && NoDuplicates(ids) && forall i :: 0 <= i < |ids| ==> ids[i] in current {
      PermutationCovers(current, ids);
    }
  }

  // ---- the rows ----

  datatype Row = Row(product: ProductId, image: Image, sortOrder: int, isPrimary: bool, createdAt: Time)

  type Rows = map<ImageId, Row>

  ghost predicate HasPicture(rows: Rows, p: ProductId, list: seq<Picture>, i: nat)
    requires i < |list|
  {
    && list[i].id in rows
    && rows[list[i].id].product == p
    && rows[list[i].id].image == list[i].image
    && (rows[list[i].id].isPrimary <==> i == 0)
    && rows[list[i].id].sortOrder >= 0
  }

  ghost predicate InOrder(rows: Rows, list: seq<Picture>, i: nat, j: nat)
    requires i < |list| && j < |list|
  {
    list[i].id in rows && list[j].id in rows && rows[list[i].id].sortOrder < rows[list[j].id].sortOrder
  }

  /** The rows of a product stand for this list: the same pictures, the head and only the head
      primary, sort orders increasing along the list (but not necessarily consecutive). */
  ghost predicate Shows(rows: Rows, p: ProductId, list: seq<Picture>) {
    && (forall i :: 0 <= i < |list| ==> HasPicture(rows, p, list, i))
    && (forall i, j :: 0 <= i < j < |list| ==> InOrder(rows, list, i, j))
    && (forall id :: id in rows && rows[id].product == p ==> id in Ids(list))
  }

  function HeadImage(list: seq<Picture>): Option<Image> {
    if list == [] then None else Some(list[0].image)
  }

  ghost predicate UniquePublicIds(rows: Rows) {
    forall a, b :: a in rows && b in rows && rows[a].image.publicId == rows[b].image.publicId ==> a == b
  }

  ghost predicate OnePrimary(rows: Rows) {
    forall a, b ::
      (a in rows && b in rows && rows[a].isPrimary && rows[b].isPrimary && rows[a].product == rows[b].product) ==> a == b
  }

  /** The tables refine the lists: every product's rows show its gallery, and the image fields
      copied to the product are the head's, or null. */
  ghost predicate Refines(rows: Rows, copies: map<ProductId, Option<Image>>, galleries: map<ProductId, seq<Picture>>) {
    && copies.Keys == galleries.Keys
    && (forall p :: p in galleries ==> Shows(rows, p, galleries[p]))
    && (forall p :: p in galleries ==> copies[p] == HeadImage(galleries[p]))
    && (forall p :: p in galleries ==> |galleries[p]| <= MAX_PRODUCT_IMAGES)
    && (forall id :: id in rows ==> rows[id].product in galleries)
    && UniquePublicIds(rows)
  }

  // ---- ORDER BY is_primary DESC, sort_order ASC, created_at ASC ----

  predicate Before(a: Row, b: Row) {
    if a.isPrimary != b.isPrimary then a.isPrimary
    else if a.sortOrder != b.sortOrder then a.sortOrder < b.sortOrder
    else a.createdAt < b.createdAt
  }

  /** A listing of a product's rows that no database sorting by those keys could call unsorted. */
  ghost predicate SortedListing(rows: Rows, p: ProductId, ids: seq<ImageId>) {
    && NoDuplicates(ids)
    && (forall i :: 0 <= i < |ids| ==> ids[i] in rows && rows[ids[i]].product == p)
    && (forall id :: id in rows && rows[id].product == p ==> id in ids)
    && (forall i, j :: 0 <= i < j < |ids| ==> !Before(rows[ids[j]], rows[ids[i]]))
  }

  lemma ShownSorted(rows: Rows, p: ProductId, list: seq<Picture>, i: nat, j: nat)
    requires Shows(rows, p, list) && i < j < |list|
    ensures list[i].id in rows && list[j].id in rows
    ensures Before(rows[list[i].id], rows[list[j].id]) && !Before(rows[list[j].id], rows[list[i].id])
  {
    assert HasPicture(rows, p, list, i) && HasPicture(rows, p, list, j) && InOrder(rows, list, i, j);
  }

  ghost predicate AgreeUpTo(list: seq<Picture>, ids: seq<ImageId>, n: nat) {
    n <= |list| && n <= |ids| && forall k :: 0 <= k < n ==> ids[k] == list[k].id
  }

  lemma PlaceInList(rows: Rows, p: ProductId, list: seq<Picture>, ids: seq<ImageId>, n: nat) returns (a: nat)
    requires Shows(rows, p, list) && SortedListing(rows, p, ids) && AgreeUpTo(list, ids, n) && n < |ids|
    ensures n <= a < |list| && list[a].id == ids[n]
  {
    assert forall k :: 0 <= k < n ==> ids[k] != ids[n];
    assert ids[n] in Ids(list);
    a :| 0 <= a < |list| && Ids(list)[a] == ids[n];
  }

  lemma PlaceInListing(rows: Rows, p: ProductId, list: seq<Picture>, ids: seq<ImageId>, n: nat) returns (b: nat)
    requires Shows(rows, p, list) && SortedListing(rows, p, ids) && AgreeUpTo(list, ids, n) && n < |list|
    ensures n <= b < |ids| && ids[b] == list[n].id
  {
    forall k | 0 <= k < n ensures ids[k] != list[n].id {
      assert InOrder(rows, list, k, n);
    }
    assert HasPicture(rows, p, list, n);
    b :| 0 <= b < |ids| && ids[b] == list[n].id;
  }

  lemma AgreeOneMore(rows: Rows, p: ProductId, list: seq<Picture>, ids: seq<ImageId>, n: nat)
    requires Shows(rows, p, list) && SortedListing(rows, p, ids) && AgreeUpTo(list, ids, n) && n < |ids| && n < |list|
    ensures AgreeUpTo(list, ids, n + 1)
  {
    var a := PlaceInList(rows, p, list, ids, n);
    var b := PlaceInListing(rows, p, list, ids, n);
    assert b > n ==> !Before(rows[ids[b]], rows[ids[n]]);
    if a > n {
      ShownSorted(rows, p, list, n, a);
    }
  }

  lemma {:induction false} ListingAgrees(rows: Rows, p: ProductId, list: seq<Picture>, ids: seq<ImageId>, n: nat)
    requires Shows(rows, p, list) && SortedListing(rows, p, ids) && n <= |ids| && n <= |list|
    ensures AgreeUpTo(list, ids, n)
  {
    if n > 0 {
      ListingAgrees(rows, p, list, ids, n - 1);
      AgreeOneMore(rows, p, list, ids, n - 1);
    }
  }

  /** Reading back: every sorted listing of the rows is the list they stand for. */
  lemma ListingIsGallery(rows: Rows, p: ProductId, list: seq<Picture>, ids: seq<ImageId>)
    requires Shows(rows, p, list) && SortedListing(rows, p, ids)
    ensures ids == Ids(list)
  {
    var n := if |ids| < |list| then |ids| else |list|;
    ListingAgrees(rows, p, list, ids, n);
    if |ids| < |list| {
      var b := PlaceInListing(rows, p, list, ids, n);
    } else if |list| < |ids| {
      var a := PlaceInList(rows, p, list, ids, n);
    }
  }

  lemma ShownListing(rows: Rows, p: ProductId, list: seq<Picture>)
    requires Shows(rows, p, list)
    ensures SortedListing(rows, p, Ids(list))
  {
    forall i | 0 <= i < |list| ensures list[i].id in rows && rows[list[i].id].product == p {
      assert HasPicture(rows, p, list, i);
    }
    forall i, j | 0 <= i < j < |list|
      ensures list[i].id != list[j].id && !Before(rows[list[j].id], rows[list[i].id])
    {
      ShownSorted(rows, p, list, i, j);
    }
  }

  /** The list a product's rows stand for is unique. */
  lemma GalleryUnique(rows: Rows, p: ProductId, list: seq<Picture>, list': seq<Picture>)
    requires Shows(rows, p, list) && Shows(rows, p, list')
    ensures list == list'
  {
    ShownListing(rows, p, list);
    ListingIsGallery(rows, p, list', Ids(list));
    forall i | 0 <= i < |list| ensures list[i] == list'[i] {
      assert Ids(list)[i] == Ids(list')[i];
      assert HasPicture(rows, p, list, i) && HasPicture(rows, p, list', i);
    }
  }
}
